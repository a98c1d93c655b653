/** Synthesis of a minimal instance from a JSON Schema, bounded in depth and in visited nodes. */
module SchemaSynth {
  import opened Wrappers
  import opened ToolSchema

  const MAX_DEPTH := 12
  const MAX_ARRAY_ITEMS := 5
  const MAX_NODES := 5000

  type Defs = map<string, Value>

  // ----- schema accessors

  function ArrayAt(schema: Schema, key: string): seq<Value> {
    match Get(schema, key)
    case Some(VArr(items)) => items
    case _ => []
  }

  function FirstNonNull(names: seq<Value>): string {
    if names == [] then "null"
    else if names[0].VStr? && names[0].s != "null" then names[0].s
    else FirstNonNull(names[1..])
  }

  /** `type` may be a name or a list of names; otherwise `properties` or `items` imply it. */
  function Kind(schema: Schema): string {
    match Get(schema, "type")
    case Some(VStr(s)) => s
    case Some(VArr(names)) => FirstNonNull(names)
    case _ => if "properties" in schema then "object" else if "items" in schema then "array" else ""
  }

  function RefName(ref: string): string {
    if "#/$defs/" <= ref then ref[|"#/$defs/"|..]
    else if "#/definitions/" <= ref then ref[|"#/definitions/"|..]
    else ref
  }

  function Resolve(ref: string, defs: Defs): Option<Schema> {
    match Get(defs, RefName(ref))
    case Some(VObj(fields)) => Some(fields)
    case _ => None
  }

  function ExtractDefs(schema: Schema): Defs {
    match Get(schema, "$defs")
    case Some(VObj(d)) => d
    case _ => ObjectAt(schema, "definitions")
  }

  function Ref(schema: Schema): Option<string> {
    match Get(schema, "$ref")
    case Some(VStr(s)) => Some(s)
    case _ => None
  }

  /** The first branch of a non-empty `anyOf` or `oneOf`, when it is a schema. */
  function FirstBranch(schema: Schema, key: string): Option<Schema> {
    var arr := ArrayAt(schema, key);
    if arr != [] && arr[0].VObj? then Some(arr[0].fields) else None
  }

  function NumberAt(schema: Schema, key: string): Option<real> {
    match Get(schema, key)
    case Some(v) => Number(v)
    case None => None
  }

  function Ceil(x: real): int { -((-x).Floor) }

  function ClampMax(v: int, schema: Schema): int {
    var mx := NumberAt(schema, "maximum");
    if mx.Some? && v as real > mx.value then mx.value.Floor
    else
      var ex := NumberAt(schema, "exclusiveMaximum");
      if ex.Some? && v as real >= ex.value then Ceil(ex.value) - 1 else v
  }

  function IntegerFor(schema: Schema): int {
    var lo := NumberAt(schema, "minimum");
    var ex := NumberAt(schema, "exclusiveMinimum");
    if lo.Some? then ClampMax(Ceil(lo.value), schema)
    else if ex.Some? then ClampMax(ex.value.Floor + 1, schema)
    else 0
  }

  function NumberFor(schema: Schema): real {
    var lo := NumberAt(schema, "minimum");
    var ex := NumberAt(schema, "exclusiveMinimum");
    if lo.Some? then lo.value else if ex.Some? then ex.value + 1.0 else 0.0
  }

  function StringFor(schema: Schema): string {
    match Get(schema, "format")
    case Some(VStr("date-time")) => "2024-01-01T00:00:00Z"
    case Some(VStr("date")) => "2024-01-01"
    case Some(VStr("time")) => "00:00:00"
    case Some(VStr("email")) => "user@example.com"
    case Some(VStr("uri")) => "https://example.com"
    case Some(VStr("url")) => "https://example.com"
    case Some(VStr("uuid")) => "00000000-0000-4000-8000-000000000000"
    case _ => ""
  }

  function Tuple(schema: Schema): seq<Value> {
    if ArrayAt(schema, "prefixItems") != [] then ArrayAt(schema, "prefixItems") else ArrayAt(schema, "items")
  }

  function ItemCount(schema: Schema): nat {
    var mi := NumberAt(schema, "minItems");
    var n := if mi.Some? && Truncate(mi.value) > 1 then Truncate(mi.value) else 1;
    if n > MAX_ARRAY_ITEMS then MAX_ARRAY_ITEMS else n
  }

  /** The non-recursing value at the depth or node limit; a reference is looked through once. */
  function Zero(defs: Defs, schema: Schema): Value {
    var target := match Ref(schema) case Some(r) => Resolve(r, defs) case None => None;
    match Kind(if target.Some? then target.value else schema)
    case "object" => VObj(map[])
    case "array" => VArr([])
    case "string" => VStr("")
    case "integer" => VInt(0)
    case "number" => VFloat(0.0)
    case "boolean" => VBool(false)
    case _ => VNull
  }

  // ----- merging allOf branches

  /** The properties of the branches from position `i` on, later ones winning, nested `allOf` followed. */
  function Merge(defs: Defs, branches: seq<Value>, dst: map<string, Value>, depth: nat): map<string, Value>
    decreases MAX_DEPTH + 1 - depth, |branches|
  {
    if depth > MAX_DEPTH || branches == [] then dst
    else Merge(defs, branches[1..], MergeBranch(defs, branches[0], dst, depth), depth)
  }

  /** The schema a branch stands for: itself, or what its reference resolves to. */
  function BranchSchema(defs: Defs, branch: Value): Option<Schema> {
    if !branch.VObj? then None
    else match Ref(branch.fields)
      case Some(r) => Resolve(r, defs)
      case None => Some(branch.fields)
  }

  function MergeBranch(defs: Defs, branch: Value, dst: map<string, Value>, depth: nat): map<string, Value>
    requires depth <= MAX_DEPTH
    decreases MAX_DEPTH + 1 - depth, 0
  {
    match BranchSchema(defs, branch)
    case None => dst
    case Some(sub) => Merge(defs, ArrayAt(sub, "allOf"), dst + ObjectAt(sub, "properties"), depth + 1)
  }

  // ----- what a merge costs

  /** How many branches one merge looks at. */
  function MergeSteps(defs: Defs, branches: seq<Value>, depth: nat): nat
    decreases MAX_DEPTH + 1 - depth, |branches|
  {
    if depth > MAX_DEPTH || branches == [] then 0
    else BranchSteps(defs, branches[0], depth) + MergeSteps(defs, branches[1..], depth)
  }

  function BranchSteps(defs: Defs, branch: Value, depth: nat): nat
    requires depth <= MAX_DEPTH
    decreases MAX_DEPTH + 1 - depth, 0
  {
    match BranchSchema(defs, branch)
    case None => 1
    case Some(sub) => 1 + MergeSteps(defs, ArrayAt(sub, "allOf"), depth + 1)
  }

  /** The size of a full tree of the given width and height: `w + w^2 + ... + w^n`. */
  function Geometric(w: nat, n: nat): nat {
    if n == 0 then 0 else w * (1 + Geometric(w, n - 1))
  }

  /** Levels of `allOf` a merge at `depth` can follow before the depth limit, at most `levels`. */
  function Cut(levels: nat, depth: nat): nat {
    if depth > MAX_DEPTH then 0 else if levels < MAX_DEPTH + 1 - depth then levels else MAX_DEPTH + 1 - depth
  }

  /** Every `allOf` list the merge reaches has at most `w` entries, and they nest at most `levels` deep. */
  ghost predicate Within(defs: Defs, branches: seq<Value>, w: nat, levels: nat, depth: nat)
    decreases levels, 0
  {
    || depth > MAX_DEPTH
    || (if levels == 0 then branches == []
        else |branches| <= w
             && forall i :: 0 <= i < |branches| ==> BranchWithin(defs, branches[i], w, levels - 1, depth + 1))
  }

  ghost predicate BranchWithin(defs: Defs, branch: Value, w: nat, levels: nat, depth: nat)
    decreases levels, 1
  {
    match BranchSchema(defs, branch)
    case None => true
    case Some(sub) => Within(defs, ArrayAt(sub, "allOf"), w, levels, depth)
  }

  lemma TimesStep(n: nat, x: nat)
    requires n > 0
    ensures n * x == x + (n - 1) * x
  {
  }

  lemma TimesMonotone(a: nat, b: nat, x: nat)
    requires a <= b
    ensures a * x <= b * x
  {
  }

  /** A merge whose lists have at most `w` entries and nest at most `levels` deep looks at a full tree at most. */
  lemma {:induction false} MergeBound(defs: Defs, branches: seq<Value>, w: nat, levels: nat, depth: nat)
    requires Within(defs, branches, w, levels, depth)
    ensures MergeSteps(defs, branches, depth) <= Geometric(w, Cut(levels, depth))
    decreases levels, |branches| + 1
  {
    if depth <= MAX_DEPTH && levels > 0 {
      BranchesBound(defs, branches, w, levels, depth);
      TimesMonotone(|branches|, w, 1 + Geometric(w, Cut(levels, depth) - 1));
    }
  }

  lemma {:induction false} BranchesBound(defs: Defs, branches: seq<Value>, w: nat, levels: nat, depth: nat)
    requires depth <= MAX_DEPTH && levels > 0
    requires forall i :: 0 <= i < |branches| ==> BranchWithin(defs, branches[i], w, levels - 1, depth + 1)
    ensures MergeSteps(defs, branches, depth) <= |branches| * (1 + Geometric(w, Cut(levels, depth) - 1))
    decreases levels, |branches|
  {
    if branches != [] {
      var each := 1 + Geometric(w, Cut(levels, depth) - 1);
      var sub := BranchSchema(defs, branches[0]);
      assert BranchWithin(defs, branches[0], w, levels - 1, depth + 1);
      if sub.Some? {
        MergeBound(defs, ArrayAt(sub.value, "allOf"), w, levels - 1, depth + 1);
        assert Cut(levels - 1, depth + 1) == Cut(levels, depth) - 1;
      }
      BranchesBound(defs, branches[1..], w, levels, depth);
      TimesStep(|branches|, each);
    }
  }

  function Copies(b: Value, n: nat): (r: seq<Value>)
    ensures |r| == n && forall i :: 0 <= i < n ==> r[i] == b
  {
    seq(n, _ => b)
  }

  lemma {:induction false} CopiesSteps(defs: Defs, b: Value, n: nat, depth: nat)
    requires depth <= MAX_DEPTH
    ensures MergeSteps(defs, Copies(b, n), depth) == n * BranchSteps(defs, b, depth)
    decreases n
  {
    if n > 0 {
      assert Copies(b, n)[1..] == Copies(b, n - 1);
      CopiesSteps(defs, b, n - 1, depth);
      TimesStep(n, BranchSteps(defs, b, depth));
    }
  }

  /** Lists of `w` entries nested `levels` deep. */
  function Nest(w: nat, levels: nat): seq<Value> {
    if levels == 0 then [] else Copies(VObj(map["allOf" := VArr(Nest(w, levels - 1))]), w)
  }

  lemma InlineBranch(defs: Defs, inner: seq<Value>)
    ensures var b := VObj(map["allOf" := VArr(inner)]);
            BranchSchema(defs, b) == Some(b.fields) && ArrayAt(b.fields, "allOf") == inner
  {
  }

  lemma CopiesWithin(defs: Defs, b: Value, w: nat, levels: nat, depth: nat)
    requires levels > 0 && BranchWithin(defs, b, w, levels - 1, depth + 1)
    ensures Within(defs, Copies(b, w), w, levels, depth)
  {
  }

  /** The bound is reached. */
  lemma {:induction false} NestReachesBound(defs: Defs, w: nat, levels: nat, depth: nat)
    ensures Within(defs, Nest(w, levels), w, levels, depth)
    ensures MergeSteps(defs, Nest(w, levels), depth) == Geometric(w, Cut(levels, depth))
    decreases levels
  {
    if levels > 0 {
      var b := VObj(map["allOf" := VArr(Nest(w, levels - 1))]);
      NestReachesBound(defs, w, levels - 1, depth + 1);
      InlineBranch(defs, Nest(w, levels - 1));
      CopiesWithin(defs, b, w, levels, depth);
      if depth <= MAX_DEPTH {
        CopiesSteps(defs, b, w, depth);
        assert Cut(levels - 1, depth + 1) == Cut(levels, depth) - 1;
      }
    }
  }

  /**
   Exactly when the node limit also bounds a merge: for lists of at most `w` entries nested at most `levels` deep,
   every merge at the root stays within it if and only if the full tree does.
   */
  lemma MergeKeepsBudgetIff(w: nat, levels: nat)
    ensures (forall defs: Defs, branches ::
               Within(defs, branches, w, levels, 0) ==> MergeSteps(defs, branches, 0) <= MAX_NODES)
       <==> Geometric(w, Cut(levels, 0)) <= MAX_NODES
  {
    if Geometric(w, Cut(levels, 0)) <= MAX_NODES {
      forall defs: Defs, branches | Within(defs, branches, w, levels, 0)
        ensures MergeSteps(defs, branches, 0) <= MAX_NODES
      {
        MergeBound(defs, branches, w, levels, 0);
      }
    } else {
      NestReachesBound(map[], w, levels, 0);
      assert MergeSteps(map[], Nest(w, levels), 0) > MAX_NODES;
    }
  }

  /** The branch stands for a schema whose `allOf` lists that same branch `w` times. */
  predicate Repeats(defs: Defs, b: Value, w: nat) {
    BranchSchema(defs, b).Some? && ArrayAt(BranchSchema(defs, b).value, "allOf") == Copies(b, w)
  }

  lemma {:induction false} RepeatsReachesBound(defs: Defs, b: Value, w: nat, depth: nat)
    requires Repeats(defs, b, w)
    ensures MergeSteps(defs, Copies(b, w), depth) == Geometric(w, Cut(MAX_DEPTH + 1, depth))
    decreases MAX_DEPTH + 1 - depth
  {
    if depth <= MAX_DEPTH {
      RepeatsReachesBound(defs, b, w, depth + 1);
      CopiesSteps(defs, b, w, depth);
    }
  }

  function SelfRef(): Value { VObj(map["$ref" := VStr("A")]) }

  /** One definition whose `allOf` refers to itself twice. */
  function DoublingDefs(): Defs { map["A" := VObj(map["allOf" := VArr([SelfRef(), SelfRef()])])] }

  /** A single merge at the root of this small document looks at more branches than the whole walk may visit nodes. */
  lemma MergeExceedsNodeBudget()
    ensures MergeSteps(DoublingDefs(), [SelfRef(), SelfRef()], 0) == 16382 > MAX_NODES
  {
    SelfRefRepeats();
    RepeatsReachesBound(DoublingDefs(), SelfRef(), 2, 0);
    ThirteenDoublings();
  }

  lemma SelfRefRepeats()
    ensures Repeats(DoublingDefs(), SelfRef(), 2) && [SelfRef(), SelfRef()] == Copies(SelfRef(), 2)
  {
    assert RefName("A") == "A";
    assert [SelfRef(), SelfRef()] == Copies(SelfRef(), 2);
  }

  lemma ThirteenDoublings()
    ensures Geometric(2, 13) == 16382
  {
  }

  // ----- the same from the text of a document

  /** Every `allOf` list written anywhere in the value has at most `w` entries. */
  ghost predicate Slim(v: Value, w: nat) {
    match v
    case VObj(_) =>
      forall k :: k in v.fields ==>
        Slim(v.fields[k], w) && (k == "allOf" && v.fields[k].VArr? ==> |v.fields[k].items| <= w)
    case VArr(_) => SlimAll(v.items, w)
    case _ => true
  }

  ghost predicate SlimAll(vs: seq<Value>, w: nat) {
    forall i :: 0 <= i < |vs| ==> Slim(vs[i], w)
  }

  ghost predicate SlimMap(m: map<string, Value>, w: nat) {
    forall k :: k in m ==> Slim(m[k], w)
  }

  lemma SlimParts(schema: Schema, key: string, w: nat)
    requires Slim(VObj(schema), w)
    ensures SlimAll(ArrayAt(schema, key), w) && SlimMap(ObjectAt(schema, key), w)
    ensures key == "allOf" ==> |ArrayAt(schema, key)| <= w
  {
    var v := VObj(schema);
    if key in schema {
      assert Slim(v.fields[key], w);
    }
  }

  lemma SlimBranch(defs: Defs, branch: Value, w: nat)
    requires SlimMap(defs, w) && Slim(branch, w) && BranchSchema(defs, branch).Some?
    ensures Slim(VObj(BranchSchema(defs, branch).value), w)
  {
    if Ref(branch.fields).Some? {
      SlimResolve(defs, Ref(branch.fields).value, w);
    }
  }

  lemma SlimResolve(defs: Defs, ref: string, w: nat)
    requires SlimMap(defs, w) && Resolve(ref, defs).Some?
    ensures Slim(VObj(Resolve(ref, defs).value), w)
  {
    assert Slim(defs[RefName(ref)], w);
  }

  /** A document with short lists gives merges with short lists, however its references twist. */
  lemma {:induction false} SlimIsWithin(defs: Defs, branches: seq<Value>, w: nat, depth: nat)
    requires SlimMap(defs, w) && SlimAll(branches, w) && |branches| <= w
    ensures Within(defs, branches, w, MAX_DEPTH + 1 - (if depth > MAX_DEPTH then MAX_DEPTH + 1 else depth), depth)
    decreases MAX_DEPTH + 1 - depth
  {
    if depth <= MAX_DEPTH {
      forall i | 0 <= i < |branches| ensures BranchWithin(defs, branches[i], w, MAX_DEPTH - depth, depth + 1) {
        var sub := BranchSchema(defs, branches[i]);
        if sub.Some? {
          SlimBranch(defs, branches[i], w);
          SlimParts(sub.value, "allOf", w);
          SlimIsWithin(defs, ArrayAt(sub.value, "allOf"), w, depth + 1);
        }
      }
    }
  }

  lemma {:induction false} GeometricGrows(w: nat, m: nat, n: nat)
    requires m <= n
    ensures Geometric(w, m) <= Geometric(w, n)
  {
    if m > 0 {
      GeometricGrows(w, m - 1, n - 1);
      TimesMonotone(1 + Geometric(w, m - 1), 1 + Geometric(w, n - 1), w);
    }
  }

  /** The most one merge can cost in a document whose `allOf` lists have at most `w` entries. */
  function MergeCost(w: nat): nat { Geometric(w, MAX_DEPTH + 1) }

  lemma SlimMergeCost(defs: Defs, schema: Schema, w: nat, depth: nat)
    requires SlimMap(defs, w) && Slim(VObj(schema), w)
    ensures MergeSteps(defs, ArrayAt(schema, "allOf"), depth) <= MergeCost(w)
  {
    SlimParts(schema, "allOf", w);
    if depth <= MAX_DEPTH {
      SlimIsWithin(defs, ArrayAt(schema, "allOf"), w, depth);
      MergeBound(defs, ArrayAt(schema, "allOf"), w, MAX_DEPTH + 1 - depth, depth);
      GeometricGrows(w, MAX_DEPTH + 1 - depth, MAX_DEPTH + 1);
    }
  }

  lemma {:induction false} SlimMerge(defs: Defs, branches: seq<Value>, dst: map<string, Value>, w: nat, depth: nat)
    requires SlimMap(defs, w) && SlimAll(branches, w) && SlimMap(dst, w)
    ensures SlimMap(Merge(defs, branches, dst, depth), w)
    decreases MAX_DEPTH + 1 - depth, |branches|
  {
    if depth <= MAX_DEPTH && branches != [] {
      var sub := BranchSchema(defs, branches[0]);
      if sub.Some? {
        SlimBranch(defs, branches[0], w);
        SlimParts(sub.value, "properties", w);
        SlimParts(sub.value, "allOf", w);
        SlimMerge(defs, ArrayAt(sub.value, "allOf"), dst + ObjectAt(sub.value, "properties"), w, depth + 1);
      }
      SlimMerge(defs, branches[1..], MergeBranch(defs, branches[0], dst, depth), w, depth);
    }
  }

  // ----- the value without a node limit

  datatype Shape =
    | Done(v: Value)
    | Into(target: Schema)
    | Object(props: map<string, Value>)
    | Tupled(parts: seq<Value>)
    | Repeated(item: Schema, n: nat)

  function ArrayShape(schema: Schema): Shape {
    if Tuple(schema) != [] then Tupled(Tuple(schema))
    else match Get(schema, "items")
      case Some(VObj(item)) => Repeated(item, ItemCount(schema))
      case _ => Done(VArr([]))
  }

  /** What a node asks for next, in the order the source tries the keywords. */
  function ShapeOf(defs: Defs, schema: Schema, depth: nat): Shape {
    if "const" in schema then Done(schema["const"])
    else if ArrayAt(schema, "enum") != [] then Done(ArrayAt(schema, "enum")[0])
    else if Ref(schema).Some? then
      match Resolve(Ref(schema).value, defs)
      case Some(target) => Into(target)
      case None => Done(VNull)
    else if FirstBranch(schema, "anyOf").Some? then Into(FirstBranch(schema, "anyOf").value)
    else if FirstBranch(schema, "oneOf").Some? then Into(FirstBranch(schema, "oneOf").value)
    else if ArrayAt(schema, "allOf") != [] then
      var props := Merge(defs, ArrayAt(schema, "allOf"), Properties(schema), depth);
      if props != map[] then Object(props)
      else match FirstBranch(schema, "allOf")
        case Some(first) => Into(first)
        case None => Done(VNull)
    else
      match Kind(schema)
      case "object" => Object(Properties(schema))
      case "array" => ArrayShape(schema)
      case "string" => Done(VStr(StringFor(schema)))
      case "integer" => Done(VInt(IntegerFor(schema)))
      case "number" => Done(VFloat(NumberFor(schema)))
      case "boolean" => Done(VBool(false))
      case _ => Done(VNull)
  }

  ghost predicate SlimShape(shape: Shape, w: nat) {
    match shape
    case Done(_) => true
    case Into(target) => Slim(VObj(target), w)
    case Object(props) => SlimMap(props, w)
    case Tupled(parts) => SlimAll(parts, w)
    case Repeated(item, _) => Slim(VObj(item), w)
  }

  lemma SlimFirstBranch(schema: Schema, key: string, w: nat)
    requires Slim(VObj(schema), w) && FirstBranch(schema, key).Some?
    ensures Slim(VObj(FirstBranch(schema, key).value), w)
  {
    SlimParts(schema, key, w);
  }

  lemma SlimArrayShape(schema: Schema, w: nat)
    requires Slim(VObj(schema), w)
    ensures SlimShape(ArrayShape(schema), w)
  {
    SlimParts(schema, "prefixItems", w);
    SlimParts(schema, "items", w);
    if "items" in schema {
      assert Slim(VObj(schema).fields["items"], w);
    }
  }

  /** What a node asks for next is part of the document, or merged from its parts. */
  lemma SlimNext(defs: Defs, schema: Schema, w: nat, depth: nat)
    requires SlimMap(defs, w) && Slim(VObj(schema), w)
    ensures SlimShape(ShapeOf(defs, schema, depth), w)
  {
    if "const" in schema || ArrayAt(schema, "enum") != [] {
    } else if Ref(schema).Some? {
      if Resolve(Ref(schema).value, defs).Some? {
        SlimResolve(defs, Ref(schema).value, w);
      }
    } else if FirstBranch(schema, "anyOf").Some? {
      SlimFirstBranch(schema, "anyOf", w);
    } else if FirstBranch(schema, "oneOf").Some? {
      SlimFirstBranch(schema, "oneOf", w);
    } else if ArrayAt(schema, "allOf") != [] {
      SlimParts(schema, "allOf", w);
      SlimParts(schema, "properties", w);
      SlimMerge(defs, ArrayAt(schema, "allOf"), Properties(schema), w, depth);
      if FirstBranch(schema, "allOf").Some? {
        SlimFirstBranch(schema, "allOf", w);
      }
    } else {
      SlimParts(schema, "properties", w);
      SlimArrayShape(schema, w);
    }
  }

  /** The synthesized value when nodes are unlimited; `depth` still cuts recursion off. */
  function Instance(defs: Defs, schema: Schema, depth: nat): Value
    requires depth <= MAX_DEPTH
    decreases MAX_DEPTH - depth, 1
  {
    if depth == MAX_DEPTH then Zero(defs, schema) else ShapeInstance(defs, ShapeOf(defs, schema, depth), depth + 1)
  }

  function ShapeInstance(defs: Defs, shape: Shape, depth: nat): Value
    requires depth <= MAX_DEPTH
    decreases MAX_DEPTH - depth, 3
  {
    match shape
    case Done(v) => v
    case Into(target) => Instance(defs, target, depth)
    case Object(props) => VObj(map k | k in props :: PartValue(defs, props[k], depth))
    case Tupled(parts) => VArr(seq(|parts|, i requires 0 <= i < |parts| => PartValue(defs, parts[i], depth)))
    case Repeated(item, n) => VArr(seq(n, _ => Instance(defs, item, depth)))
  }

  /** A property or tuple member that is not a schema becomes null. */
  function PartValue(defs: Defs, part: Value, depth: nat): Value
    requires depth <= MAX_DEPTH
    decreases MAX_DEPTH - depth, 2
  {
    if part.VObj? then Instance(defs, part.fields, depth) else VNull
  }

  /** How many nodes that visits. */
  ghost function Visits(defs: Defs, schema: Schema, depth: nat): nat
    requires depth <= MAX_DEPTH
    decreases MAX_DEPTH - depth, 1
  {
    if depth == MAX_DEPTH then 1 else 1 + ShapeVisits(defs, ShapeOf(defs, schema, depth), depth + 1)
  }

  ghost function ShapeVisits(defs: Defs, shape: Shape, depth: nat): nat
    requires depth <= MAX_DEPTH
    decreases MAX_DEPTH - depth, 4
  {
    match shape
    case Done(_) => 0
    case Into(target) => Visits(defs, target, depth)
    case Object(props) => PropVisits(defs, props, props.Keys, depth)
    case Tupled(parts) => PartsVisits(defs, parts, depth)
    case Repeated(item, n) => RepeatVisits(defs, item, n, depth)
  }

  ghost function RepeatVisits(defs: Defs, item: Schema, n: nat, depth: nat): nat
    requires depth <= MAX_DEPTH
    decreases MAX_DEPTH - depth, 3, n
  {
    if n == 0 then 0 else Visits(defs, item, depth) + RepeatVisits(defs, item, n - 1, depth)
  }

  ghost function PartVisits(defs: Defs, part: Value, depth: nat): nat
    requires depth <= MAX_DEPTH
    decreases MAX_DEPTH - depth, 2
  {
    if part.VObj? then Visits(defs, part.fields, depth) else 0
  }

  ghost function PropVisits(defs: Defs, props: map<string, Value>, keys: set<string>, depth: nat): nat
    requires depth <= MAX_DEPTH && keys <= props.Keys
    decreases MAX_DEPTH - depth, 3, keys
  {
    if keys == {} then 0
    else
      var k :| k in keys;
      PartVisits(defs, props[k], depth) + PropVisits(defs, props, keys - {k}, depth)
  }

  ghost function PartsVisits(defs: Defs, parts: seq<Value>, depth: nat): nat
    requires depth <= MAX_DEPTH
    decreases MAX_DEPTH - depth, 3, |parts|
  {
    if parts == [] then 0 else PartVisits(defs, parts[0], depth) + PartsVisits(defs, parts[1..], depth)
  }

  lemma {:induction false} PropVisitsRemove(defs: Defs, props: map<string, Value>,
                                           keys: set<string>, k: string, depth: nat)
    requires depth <= MAX_DEPTH && keys <= props.Keys && k in keys
    ensures PropVisits(defs, props, keys, depth)
         == PartVisits(defs, props[k], depth) + PropVisits(defs, props, keys - {k}, depth)
    decreases keys
  {
    var j :| j in keys && PropVisits(defs, props, keys, depth)
                          == PartVisits(defs, props[j], depth) + PropVisits(defs, props, keys - {j}, depth);
    if j != k {
      PropVisitsRemove(defs, props, keys - {j}, k, depth);
      PropVisitsRemove(defs, props, keys - {k}, j, depth);
      assert keys - {j} - {k} == keys - {k} - {j};
    }
  }

  // ----- the walk with its shared node budget

  /** Merge the branches into `dst0`, in order; `steps` counts the branches looked at. */
  method CollectAllOfProps(defs: Defs, branches: seq<Value>, dst0: map<string, Value>, depth: nat)
    returns (dst: map<string, Value>, ghost steps: nat)
    ensures dst == Merge(defs, branches, dst0, depth)
    ensures steps == MergeSteps(defs, branches, depth)
    decreases MAX_DEPTH + 1 - depth
  {
    dst, steps := dst0, 0;
    if depth > MAX_DEPTH {
      return;
    }
    assert branches[0..] == branches;
    for i := 0 to |branches|
      invariant Merge(defs, branches, dst0, depth) == Merge(defs, branches[i..], dst, depth)
      invariant MergeSteps(defs, branches, depth) == steps + MergeSteps(defs, branches[i..], depth)
    {
      assert branches[i..][1..] == branches[i + 1..];
      steps := steps + 1;
      var sub := BranchSchema(defs, branches[i]);
      if sub.None? {
        continue;
      }
      dst := dst + ObjectAt(sub.value, "properties");
      ghost var below;
      dst, below := CollectAllOfProps(defs, ArrayAt(sub.value, "allOf"), dst, depth + 1);
      steps := steps + below;
    }
    assert branches[|branches|..] == [];
  }

  /** The keywords of a node in the order the source tries them; `steps` counts the branches a merge looks at. */
  method NextShape(defs: Defs, schema: Schema, depth: nat) returns (shape: Shape, ghost steps: nat)
    ensures shape == ShapeOf(defs, schema, depth)
    ensures steps == 0 || steps == MergeSteps(defs, ArrayAt(schema, "allOf"), depth)
  {
    steps := 0;
    if "const" in schema {
      return Done(schema["const"]), steps;
    }
    if ArrayAt(schema, "enum") != [] {
      return Done(ArrayAt(schema, "enum")[0]), steps;
    }
    if Ref(schema).Some? {
      var target := Resolve(Ref(schema).value, defs);
      return if target.Some? then Into(target.value) else Done(VNull), steps;
    }
    if FirstBranch(schema, "anyOf").Some? {
      return Into(FirstBranch(schema, "anyOf").value), steps;
    }
    if FirstBranch(schema, "oneOf").Some? {
      return Into(FirstBranch(schema, "oneOf").value), steps;
    }
    if ArrayAt(schema, "allOf") != [] {
      var props;
      props, steps := CollectAllOfProps(defs, ArrayAt(schema, "allOf"), Properties(schema), depth);
      if props != map[] {
        return Object(props), steps;
      }
      var first := FirstBranch(schema, "allOf");
      return if first.Some? then Into(first.value) else Done(VNull), steps;
    }
    match Kind(schema) {
      case "object" => return Object(Properties(schema)), steps;
      case "array" => return ArrayShape(schema), steps;
      case "string" => return Done(VStr(StringFor(schema))), steps;
      case "integer" => return Done(VInt(IntegerFor(schema))), steps;
      case "number" => return Done(VFloat(NumberFor(schema))), steps;
      case "boolean" => return Done(VBool(false)), steps;
      case _ => return Done(VNull), steps;
    }
  }

  class SynthContext {
    const defs: Defs
    var budget: int
    // Nodes visited and branches merged so far, and the length of the document's longest allOf list.
    ghost var visits: nat
    ghost var merged: nat
    ghost const width: nat

    constructor (defs: Defs, ghost width: nat)
      ensures this.defs == defs && budget == MAX_NODES && visits == 0 && merged == 0 && this.width == width
    {
      this.defs, budget, visits, merged, this.width := defs, MAX_NODES, 0, 0, width;
    }

    /** Merging has cost at most one full merge for each node visited. */
    ghost predicate InCredit()
      reads this
    {
      merged <= visits * MergeCost(width)
    }

    /** Every visit spends one unit of budget, and the budget never goes below zero. */
    twostate predicate Spent()
      reads this
    {
      0 <= budget <= old(budget) && visits - old(visits) == old(budget) - budget
    }

    /** Choose the shape of the node just visited, charging its merge to that visit. */
    method Charge(schema: Schema, depth: nat) returns (shape: Shape)
      requires visits > 0
      modifies this`merged
      ensures shape == ShapeOf(defs, schema, depth)
      ensures SlimMap(defs, width) && Slim(VObj(schema), width) ==> SlimShape(shape, width)
      ensures (&& SlimMap(defs, width) && Slim(VObj(schema), width)
               && old(merged) <= (visits - 1) * MergeCost(width)) ==> InCredit()
    {
      ghost var steps;
      shape, steps := NextShape(defs, schema, depth);
      merged := merged + steps;
      if SlimMap(defs, width) && Slim(VObj(schema), width) {
        SlimMergeCost(defs, schema, width, depth);
        SlimNext(defs, schema, width, depth);
        assert visits * MergeCost(width) == (visits - 1) * MergeCost(width) + MergeCost(width);
      }
    }

    /**
     Visit one node. With budget to spare the result and the number of visits are those of the unlimited walk,
     whatever order the maps are traversed in.
     */
    method Synth(schema: Schema, depth: nat) returns (v: Value)
      requires depth <= MAX_DEPTH && budget > 0
      modifies this
      ensures Spent()
      ensures SlimMap(defs, width) && Slim(VObj(schema), width) && old(InCredit()) ==> InCredit()
      ensures old(budget) > Visits(defs, schema, depth) ==>
                v == Instance(defs, schema, depth) && budget == old(budget) - Visits(defs, schema, depth)
      decreases MAX_DEPTH - depth, 1
    {
      budget, visits := budget - 1, visits + 1;
      if budget <= 0 || depth >= MAX_DEPTH {
        return Zero(defs, schema);
      }
      var shape := Charge(schema, depth);
      v := SynthShape(shape, depth + 1);
    }

    method SynthShape(shape: Shape, depth: nat) returns (v: Value)
      requires depth <= MAX_DEPTH && budget > 0
      modifies this
      ensures Spent()
      ensures SlimMap(defs, width) && SlimShape(shape, width) && old(InCredit()) ==> InCredit()
      ensures old(budget) > ShapeVisits(defs, shape, depth) ==>
                v == ShapeInstance(defs, shape, depth) && budget == old(budget) - ShapeVisits(defs, shape, depth)
      decreases MAX_DEPTH - depth, 3
    {
      match shape {
        case Done(value) => v := value;
        case Into(target) => v := Synth(target, depth);
        case Object(props) => v := SynthObject(props, depth);
        case Tupled(parts) => v := SynthTuple(parts, depth);
        case Repeated(item, n) => v := SynthRepeated(item, n, depth);
      }
    }

    /** One value per declared property, in map order, until the budget is exhausted. */
    method SynthObject(props: map<string, Value>, depth: nat) returns (v: Value)
      requires depth <= MAX_DEPTH && budget >= 0
      modifies this
      ensures Spent()
      ensures SlimMap(defs, width) && SlimMap(props, width) && old(InCredit()) ==> InCredit()
      ensures old(budget) > PropVisits(defs, props, props.Keys, depth) ==>
                && v == VObj(map k | k in props :: PartValue(defs, props[k], depth))
                && budget == old(budget) - PropVisits(defs, props, props.Keys, depth)
      decreases MAX_DEPTH - depth, 2
    {
      ghost var total := PropVisits(defs, props, props.Keys, depth);
      var obj: map<string, Value> := map[];
      var todo := props.Keys;
      while todo != {}
        invariant todo <= props.Keys && Spent()
                  && (SlimMap(defs, width) && SlimMap(props, width) && old(InCredit()) ==> InCredit())
        invariant old(budget) > total ==>
                    && budget == old(budget) - total + PropVisits(defs, props, todo, depth)
                    && obj == map k | k in props && k !in todo :: PartValue(defs, props[k], depth)
      {
        if budget <= 0 {
          break;
        }
        var k :| k in todo;
        PropVisitsRemove(defs, props, todo, k, depth);
        todo := todo - {k};
        if props[k].VObj? {
          var part := Synth(props[k].fields, depth);
          obj := obj[k := part];
        } else {
          obj := obj[k := VNull];
        }
      }
      v := VObj(obj);
    }

    /** One value per positional sub-schema. */
    method SynthTuple(parts: seq<Value>, depth: nat) returns (v: Value)
      requires depth <= MAX_DEPTH && budget >= 0
      modifies this
      ensures Spent()
      ensures SlimMap(defs, width) && SlimAll(parts, width) && old(InCredit()) ==> InCredit()
      ensures old(budget) > PartsVisits(defs, parts, depth) ==>
                && v == VArr(seq(|parts|, i requires 0 <= i < |parts| => PartValue(defs, parts[i], depth)))
                && budget == old(budget) - PartsVisits(defs, parts, depth)
      decreases MAX_DEPTH - depth, 2
    {
      ghost var total := PartsVisits(defs, parts, depth);
      var arr: seq<Value> := [];
      assert parts[0..] == parts;
      for i := 0 to |parts|
        invariant Spent() && (SlimMap(defs, width) && SlimAll(parts, width) && old(InCredit()) ==> InCredit())
        invariant old(budget) > total ==>
                    && budget == old(budget) - total + PartsVisits(defs, parts[i..], depth)
                    && |arr| == i && forall j :: 0 <= j < i ==> arr[j] == PartValue(defs, parts[j], depth)
      {
        if budget <= 0 {
          break;
        }
        assert parts[i..][1..] == parts[i + 1..];
        if parts[i].VObj? {
          var part := Synth(parts[i].fields, depth);
          arr := arr + [part];
        } else {
          arr := arr + [VNull];
        }
      }
      v := VArr(arr);
    }

    /** The same item schema, at most `MAX_ARRAY_ITEMS` times. */
    method SynthRepeated(item: Schema, n: nat, depth: nat) returns (v: Value)
      requires depth <= MAX_DEPTH && budget >= 0
      modifies this
      ensures Spent()
      ensures SlimMap(defs, width) && Slim(VObj(item), width) && old(InCredit()) ==> InCredit()
      ensures old(budget) > RepeatVisits(defs, item, n, depth) ==>
                v == VArr(seq(n, _ => Instance(defs, item, depth)))
                && budget == old(budget) - RepeatVisits(defs, item, n, depth)
      decreases MAX_DEPTH - depth, 2
    {
      ghost var total := RepeatVisits(defs, item, n, depth);
      var arr: seq<Value> := [];
      for i := 0 to n
        invariant Spent() && (SlimMap(defs, width) && Slim(VObj(item), width) && old(InCredit()) ==> InCredit())
        invariant old(budget) > total ==>
                    && budget == old(budget) - total + RepeatVisits(defs, item, n - i, depth)
                    && |arr| == i && forall j :: 0 <= j < i ==> arr[j] == Instance(defs, item, depth)
      {
        if budget <= 0 {
          break;
        }
        var part := Synth(item, depth);
        arr := arr + [part];
      }
      v := VArr(arr);
    }
  }

  /** An empty schema yields the empty object; otherwise at most `MAX_NODES` nodes are visited. */
  method SynthesizeFromSchema(schema: Schema, ghost width: nat) returns (v: Value, ghost visits: nat, ghost merged: nat)
    ensures schema == map[] ==> v == VObj(map[])
    ensures visits <= MAX_NODES
    ensures Slim(VObj(schema), width) ==> merged <= MAX_NODES * MergeCost(width)
    ensures schema != map[] && Visits(ExtractDefs(schema), schema, 0) < MAX_NODES ==>
              v == Instance(ExtractDefs(schema), schema, 0) && visits == Visits(ExtractDefs(schema), schema, 0)
  {
    if schema == map[] {
      return VObj(map[]), 0, 0;
    }
    var ctx := new SynthContext(ExtractDefs(schema), width);
    if Slim(VObj(schema), width) {
      SlimParts(schema, "$defs", width);
      SlimParts(schema, "definitions", width);
    }
    v := ctx.Synth(schema, 0);
    visits, merged := ctx.visits, ctx.merged;
    TimesMonotone(visits, MAX_NODES, MergeCost(width));
  }

  // ----- is the instance accepted by the validator?

  /** The validator puts no constraint on a node without a type name and without an enumeration. */
  predicate Unconstrained(schema: Schema) {
    TypeName(schema) == "" && !(Get(schema, "enum").Some? && Get(schema, "enum").value.VArr?)
  }

  predicate HasEnum(schema: Schema) { Get(schema, "enum").Some? && Get(schema, "enum").value.VArr? }

  predicate NoCombinators(schema: Schema) {
    && Ref(schema).None?
    && FirstBranch(schema, "anyOf").None? && FirstBranch(schema, "oneOf").None?
    && ArrayAt(schema, "allOf") == []
  }

  /** Constrained nodes use plain types only, and lie above the depth limit. */
  predicate Plain(schema: Schema, depth: nat)
    requires depth <= MAX_DEPTH
    decreases MAX_DEPTH - depth
  {
    || Unconstrained(schema)
    || (depth < MAX_DEPTH
        && ("const" in schema || HasEnum(schema)
            || (NoCombinators(schema)
                && (TypeName(schema) == "object" ==>
                      forall k :: k in Properties(schema) && Properties(schema)[k].VObj? ==>
                        Plain(Properties(schema)[k].fields, depth + 1))
                && (TypeName(schema) == "array" && Get(schema, "items").Some? && Get(schema, "items").value.VObj? ==>
                      Tuple(schema) == [] && Plain(ObjectAt(schema, "items"), depth + 1)))))
  }

  /**
   The author's side of the bargain: constants and enumerations of the declared type, strings long enough when
   left at their default, and every required field declared.
   */
  predicate Fits(schema: Schema, depth: nat)
    requires depth <= MAX_DEPTH
    decreases MAX_DEPTH - depth
  {
    || Unconstrained(schema)
    || (depth < MAX_DEPTH
        && if "const" in schema then AcceptsValue(schema, schema["const"])
           else if HasEnum(schema) then
             ArrayAt(schema, "enum") != [] && AcceptsValue(schema, ArrayAt(schema, "enum")[0])
           else
             match TypeName(schema)
             case "object" =>
               && Required(schema) <= Properties(schema).Keys
               && forall k :: k in Properties(schema) && Properties(schema)[k].VObj? ==>
                    Fits(Properties(schema)[k].fields, depth + 1)
             case "array" => (match Get(schema, "items")
                              case Some(VObj(item)) => Fits(item, depth + 1)
                              case _ => true)
             case "string" => LongEnough(schema, StringFor(schema)) && ShortEnough(schema, StringFor(schema))
             case _ => true)
  }

  lemma ObjectAcceptedIff(defs: Defs, schema: Schema, depth: nat)
    requires depth <= MAX_DEPTH
    requires forall k :: k in Properties(schema) && Properties(schema)[k].VObj? ==>
               (AcceptsValue(Properties(schema)[k].fields, Instance(defs, Properties(schema)[k].fields, depth))
                <==> Fits(Properties(schema)[k].fields, depth))
    ensures AcceptsObject(schema, ShapeInstance(defs, Object(Properties(schema)), depth))
       <==> Required(schema) <= Properties(schema).Keys
            && forall k :: k in Properties(schema) && Properties(schema)[k].VObj? ==>
                 Fits(Properties(schema)[k].fields, depth)
  {
    var props := Properties(schema);
    var obj := ShapeInstance(defs, Object(props), depth);
    assert obj.fields.Keys == props.Keys;
    forall k | k in props ensures AcceptsField(schema, obj, k) <==> (props[k].VObj? ==> Fits(props[k].fields, depth)) {
      assert obj.fields[k] == PartValue(defs, props[k], depth);
    }
  }

  lemma ItemsAcceptedIff(defs: Defs, schema: Schema, item: Schema, depth: nat)
    requires depth <= MAX_DEPTH && Get(schema, "items") == Some(VObj(item))
    requires AcceptsValue(item, Instance(defs, item, depth)) <==> Fits(item, depth)
    ensures AcceptsItems(schema, ShapeInstance(defs, Repeated(item, ItemCount(schema)), depth)) <==> Fits(item, depth)
  {
    var arr := ShapeInstance(defs, Repeated(item, ItemCount(schema)), depth);
    assert |arr.items| >= 1 && arr.items[0] == Instance(defs, item, depth);
  }

  lemma EnumNeedsMember(schema: Schema, v: Value)
    requires HasEnum(schema) && ArrayAt(schema, "enum") == []
    ensures !AcceptsValue(schema, v)
  {
  }

  predicate PlainTyped(schema: Schema) {
    NoCombinators(schema) && TypeName(schema) != "" && "const" !in schema && !HasEnum(schema)
  }

  lemma PlainShape(defs: Defs, schema: Schema, depth: nat)
    requires PlainTyped(schema)
    ensures TypeName(schema) == "object" ==> ShapeOf(defs, schema, depth) == Object(Properties(schema))
    ensures TypeName(schema) == "array" ==> ShapeOf(defs, schema, depth) == ArrayShape(schema)
    ensures TypeName(schema) == "string" ==> ShapeOf(defs, schema, depth) == Done(VStr(StringFor(schema)))
    ensures !(TypeName(schema) in {"object", "array", "string"}) ==>
              ShapeOf(defs, schema, depth).Done? && TypeOk(TypeName(schema), ShapeOf(defs, schema, depth).v)
  {
  }

  lemma PlainObjectIff(defs: Defs, schema: Schema, depth: nat)
    requires depth < MAX_DEPTH && PlainTyped(schema) && TypeName(schema) == "object"
    requires forall k :: k in Properties(schema) && Properties(schema)[k].VObj? ==>
               (AcceptsValue(Properties(schema)[k].fields, Instance(defs, Properties(schema)[k].fields, depth + 1))
                <==> Fits(Properties(schema)[k].fields, depth + 1))
    ensures AcceptsValue(schema, Instance(defs, schema, depth)) <==> Fits(schema, depth)
  {
    PlainShape(defs, schema, depth);
    ObjectAcceptedIff(defs, schema, depth + 1);
    TypedObjectIff(schema, Instance(defs, schema, depth));
    ObjectFitsIff(schema, depth);
  }

  lemma TypedObjectIff(schema: Schema, v: Value)
    requires PlainTyped(schema) && TypeName(schema) == "object" && v.VObj?
    ensures AcceptsValue(schema, v) <==> AcceptsObject(schema, v)
  {
  }

  lemma ObjectFitsIff(schema: Schema, depth: nat)
    requires depth < MAX_DEPTH && PlainTyped(schema) && TypeName(schema) == "object"
    ensures Fits(schema, depth) <==>
              && Required(schema) <= Properties(schema).Keys
              && forall k :: k in Properties(schema) && Properties(schema)[k].VObj? ==>
                   Fits(Properties(schema)[k].fields, depth + 1)
  {
  }

  lemma PlainArrayIff(defs: Defs, schema: Schema, depth: nat)
    requires depth < MAX_DEPTH && PlainTyped(schema) && TypeName(schema) == "array"
    requires Get(schema, "items").Some? && Get(schema, "items").value.VObj? ==>
               Tuple(schema) == []
               && (AcceptsValue(ObjectAt(schema, "items"), Instance(defs, ObjectAt(schema, "items"), depth + 1))
                   <==> Fits(ObjectAt(schema, "items"), depth + 1))
    ensures AcceptsValue(schema, Instance(defs, schema, depth)) <==> Fits(schema, depth)
  {
    PlainShape(defs, schema, depth);
    TypedArrayIff(schema, Instance(defs, schema, depth));
    match Get(schema, "items") {
      case Some(VObj(item)) => ItemsAcceptedIff(defs, schema, item, depth + 1);
      case _ =>
    }
  }

  lemma TypedArrayIff(schema: Schema, v: Value)
    requires PlainTyped(schema) && TypeName(schema) == "array"
    ensures v.VArr? ==> (AcceptsValue(schema, v) <==> AcceptsItems(schema, v))
  {
  }

  lemma PlainScalarIff(defs: Defs, schema: Schema, depth: nat)
    requires depth < MAX_DEPTH && PlainTyped(schema) && TypeName(schema) != "object" && TypeName(schema) != "array"
    ensures AcceptsValue(schema, Instance(defs, schema, depth)) <==> Fits(schema, depth)
  {
    PlainShape(defs, schema, depth);
  }

  lemma FixedValueIff(defs: Defs, schema: Schema, depth: nat)
    requires depth < MAX_DEPTH && !Unconstrained(schema) && ("const" in schema || HasEnum(schema))
    ensures AcceptsValue(schema, Instance(defs, schema, depth)) <==> Fits(schema, depth)
  {
    if "const" !in schema && ArrayAt(schema, "enum") == [] {
      EnumNeedsMember(schema, Instance(defs, schema, depth));
    }
  }

  /**
   On plain schemas within the depth limit the validator accepts the unlimited instance exactly when constants and
   enumerations are well typed, default strings satisfy their length bounds and required fields are declared.
   */
  lemma {:induction false} InstanceAcceptedIff(defs: Defs, schema: Schema, depth: nat)
    requires depth <= MAX_DEPTH && Plain(schema, depth)
    ensures AcceptsValue(schema, Instance(defs, schema, depth)) <==> Fits(schema, depth)
    decreases MAX_DEPTH - depth, 1
  {
    if Unconstrained(schema) {
    } else if "const" in schema || HasEnum(schema) {
      FixedValueIff(defs, schema, depth);
    } else if TypeName(schema) == "object" {
      ObjectInstanceIff(defs, schema, depth);
    } else if TypeName(schema) == "array" {
      ArrayInstanceIff(defs, schema, depth);
    } else {
      PlainScalarIff(defs, schema, depth);
    }
  }

  lemma {:induction false} ObjectInstanceIff(defs: Defs, schema: Schema, depth: nat)
    requires depth < MAX_DEPTH && PlainTyped(schema) && TypeName(schema) == "object" && Plain(schema, depth)
    ensures AcceptsValue(schema, Instance(defs, schema, depth)) <==> Fits(schema, depth)
    decreases MAX_DEPTH - depth, 0
  {
    forall k | k in Properties(schema) && Properties(schema)[k].VObj?
      ensures AcceptsValue(Properties(schema)[k].fields, Instance(defs, Properties(schema)[k].fields, depth + 1))
         <==> Fits(Properties(schema)[k].fields, depth + 1)
    {
      InstanceAcceptedIff(defs, Properties(schema)[k].fields, depth + 1);
    }
    PlainObjectIff(defs, schema, depth);
  }

  lemma {:induction false} ArrayInstanceIff(defs: Defs, schema: Schema, depth: nat)
    requires depth < MAX_DEPTH && PlainTyped(schema) && TypeName(schema) == "array" && Plain(schema, depth)
    ensures AcceptsValue(schema, Instance(defs, schema, depth)) <==> Fits(schema, depth)
    decreases MAX_DEPTH - depth, 0
  {
    if Get(schema, "items").Some? && Get(schema, "items").value.VObj? {
      InstanceAcceptedIff(defs, ObjectAt(schema, "items"), depth + 1);
    }
    PlainArrayIff(defs, schema, depth);
  }

  /** What the bounded synthesizer returns for a plain, fitting schema of fewer than 5000 nodes passes the validator. */
  method SynthesizeAccepted(schema: Schema) returns (v: Value)
    requires schema != map[] && Plain(schema, 0) && Fits(schema, 0)
    requires Visits(ExtractDefs(schema), schema, 0) < MAX_NODES
    ensures AcceptsValue(schema, v)
  {
    ghost var visits, merged;
    v, visits, merged := SynthesizeFromSchema(schema, 0);
    InstanceAcceptedIff(ExtractDefs(schema), schema, 0);
  }
}
