/** Decoded JSON/YAML values and the recursive validator of tool-call parameters. */
module ToolSchema {
  import opened Wrappers
  import opened ArgumentPieces
  import opened Strings

  /** A decoded value. Integers and floating-point numbers are different kinds, as in the decoder's output. */
  datatype Value =
    | VNull
    | VBool(b: bool)
    | VInt(i: int)
    | VFloat(x: real)
    | VStr(s: string)
    | VArr(items: seq<Value>)
    | VObj(fields: map<string, Value>)

  type Schema = map<string, Value>

  function Get(schema: Schema, key: string): Option<Value> {
    if key in schema then Some(schema[key]) else None
  }

  function TypeName(schema: Schema): string {
    match Get(schema, "type")
    case Some(VStr(s)) => s
    case _ => ""
  }

  /** The sub-object under `key`, or the empty object when it is absent or malformed. */
  function ObjectAt(schema: Schema, key: string): map<string, Value> {
    match Get(schema, key)
    case Some(VObj(fields)) => fields
    case _ => map[]
  }

  function Properties(schema: Schema): map<string, Value> { ObjectAt(schema, "properties") }

  /** The names listed under `required`; anything that is not a string is skipped. */
  function Required(schema: Schema): set<string> {
    match Get(schema, "required")
    case Some(VArr(items)) => set i | 0 <= i < |items| && items[i].VStr? :: items[i].s
    case _ => {}
  }

  /** Only the literal `false` closes an object to further properties. */
  predicate Closed(schema: Schema) {
    Get(schema, "additionalProperties") == Some(VBool(false))
  }

  function Number(v: Value): Option<real> {
    match v
    case VInt(i) => Some(i as real)
    case VFloat(x) => Some(x)
    case _ => None
  }

  /** Numbers compare by value; any other kinds must match and be deeply equal. */
  predicate EqualScalar(a: Value, b: Value) {
    match (Number(a), Number(b))
    case (Some(x), Some(y)) => x == y
    case (None, None) => a == b
    case _ => false
  }

  predicate TypeOk(expected: string, v: Value) {
    match expected
    case "string" => v.VStr?
    case "integer" => v.VInt? || (v.VFloat? && v.x == v.x.Floor as real)
    case "number" => v.VInt? || v.VFloat?
    case "boolean" => v.VBool?
    case "array" => v.VArr?
    case "object" => v.VObj?
    case _ => true
  }

  predicate InEnum(v: Value, allowed: seq<Value>) {
    exists i :: 0 <= i < |allowed| && EqualScalar(allowed[i], v)
  }

  predicate EnumOk(schema: Schema, v: Value) {
    match Get(schema, "enum")
    case Some(VArr(allowed)) => InEnum(v, allowed)
    case _ => true
  }

  function Truncate(x: real): int { if x < 0.0 then -((-x).Floor) else x.Floor }

  function Bound(schema: Schema, key: string): Option<int> {
    match Get(schema, key)
    case Some(VInt(i)) => Some(i)
    case Some(VFloat(x)) => Some(Truncate(x))
    case _ => None
  }

  /** Length bounds count bytes. */
  predicate LongEnough(schema: Schema, s: string) {
    var b := Bound(schema, "minLength");
    b.Some? ==> |Utf8(s)| >= b.value
  }

  predicate ShortEnough(schema: Schema, s: string) {
    var b := Bound(schema, "maxLength");
    b.Some? ==> |Utf8(s)| <= b.value
  }

  // ----- what the validator accepts

  predicate AcceptsValue(schema: Schema, v: Value)
    decreases v, 1
  {
    && TypeOk(TypeName(schema), v)
    && EnumOk(schema, v)
    && (TypeName(schema) == "string" && v.VStr? ==> LongEnough(schema, v.s) && ShortEnough(schema, v.s))
    && (TypeName(schema) == "object" && v.VObj? ==> AcceptsObject(schema, v))
    && (TypeName(schema) == "array" && v.VArr? ==> AcceptsItems(schema, v))
  }

  predicate AcceptsObject(schema: Schema, obj: Value)
    requires obj.VObj?
    decreases obj, 0
  {
    && Required(schema) <= obj.fields.Keys
    && (forall name :: name in obj.fields ==> AcceptsField(schema, obj, name))
    && (Closed(schema) ==> obj.fields.Keys <= Properties(schema).Keys)
  }

  /** A declared property with a well-formed sub-schema constrains the field of that name. */
  predicate AcceptsField(schema: Schema, obj: Value, name: string)
    requires obj.VObj? && name in obj.fields
    decreases obj, 0, 0
  {
    var props := Properties(schema);
    name in props && props[name].VObj? ==> AcceptsValue(props[name].fields, obj.fields[name])
  }

  predicate AcceptsItems(schema: Schema, arr: Value)
    requires arr.VArr?
    decreases arr, 0
  {
    match Get(schema, "items")
    case Some(VObj(items)) => forall i :: 0 <= i < |arr.items| ==> AcceptsValue(items, arr.items[i])
    case _ => true
  }

  /** Calls are checked only against object-typed schemas. */
  predicate Accepts(schema: Schema, args: map<string, Value>) {
    TypeName(schema) == "object" ==> AcceptsObject(schema, VObj(args))
  }

  // ----- the validator itself

  datatype Error =
    | Missing(path: string)
    | WrongType(path: string, expected: string)
    | NotAllowed(path: string)
    | TooShort(path: string)
    | TooLong(path: string)
    | Unexpected(path: string)

  method ValidateParameters(schema: Schema, args: map<string, Value>) returns (errs: seq<Error>)
    ensures errs == [] <==> Accepts(schema, args)
  {
    errs := [];
    if |schema| == 0 {
      assert schema == map[];
      return;
    }
    if TypeName(schema) == "object" {
      errs := ValidateObjectAt(schema, VObj(args), "");
    }
  }

  method ValidateObjectAt(schema: Schema, obj: Value, path: string) returns (errs: seq<Error>)
    requires obj.VObj?
    ensures errs == [] <==> AcceptsObject(schema, obj)
    decreases obj, 1
  {
    errs := CheckRequired(schema, obj, path);
    var fieldErrs := ValidateFields(schema, obj, path);
    errs := errs + fieldErrs;
    if Closed(schema) {
      var extra := CheckClosed(schema, obj, path);
      errs := errs + extra;
    }
  }

  method CheckRequired(schema: Schema, obj: Value, path: string) returns (errs: seq<Error>)
    requires obj.VObj?
    ensures errs == [] <==> Required(schema) <= obj.fields.Keys
  {
    errs := [];
    match Get(schema, "required") {
      case Some(VArr(items)) =>
        for i := 0 to |items|
          invariant errs == [] <==> forall j :: 0 <= j < i && items[j].VStr? ==> items[j].s in obj.fields
        {
          if items[i].VStr? && items[i].s !in obj.fields {
            errs := errs + [Missing(path + items[i].s)];
          }
        }
      case _ =>
    }
  }

  method ValidateFields(schema: Schema, obj: Value, path: string) returns (errs: seq<Error>)
    requires obj.VObj?
    ensures errs == [] <==> forall name :: name in obj.fields ==> AcceptsField(schema, obj, name)
    decreases obj, 0
  {
    errs := [];
    var props := Properties(schema);
    var todo := props.Keys;
    while todo != {}
      invariant todo <= props.Keys
      invariant errs == [] <==> forall name :: name in obj.fields && name !in todo ==> AcceptsField(schema, obj, name)
    {
      var name :| name in todo;
      todo := todo - {name};
      if name in obj.fields && props[name].VObj? {
        var more := ValidateValue(props[name].fields, obj.fields[name], path + name);
        errs := errs + more;
      }
    }
  }

  method CheckClosed(schema: Schema, obj: Value, path: string) returns (errs: seq<Error>)
    requires obj.VObj?
    ensures errs == [] <==> obj.fields.Keys <= Properties(schema).Keys
  {
    errs := [];
    var allowed := Properties(schema).Keys;
    var todo := obj.fields.Keys;
    while todo != {}
      invariant todo <= obj.fields.Keys
      invariant errs == [] <==> obj.fields.Keys - todo <= allowed
    {
      var name :| name in todo;
      todo := todo - {name};
      assert obj.fields.Keys - todo == (obj.fields.Keys - todo - {name}) + {name};
      if name !in allowed {
        errs := errs + [Unexpected(path + name)];
      }
    }
  }

  method ValidateValue(schema: Schema, v: Value, name: string) returns (errs: seq<Error>)
    ensures errs == [] <==> AcceptsValue(schema, v)
    decreases v, 2
  {
    errs := [];
    var propType := TypeName(schema);
    if propType != "" && !TypeOk(propType, v) {
      errs := errs + [WrongType(name, propType)];
    }
    if !EnumOk(schema, v) {
      errs := errs + [NotAllowed(name)];
    }
    match propType {
      case "string" =>
        if v.VStr? {
          if !LongEnough(schema, v.s) {
            errs := errs + [TooShort(name)];
          }
          if !ShortEnough(schema, v.s) {
            errs := errs + [TooLong(name)];
          }
        }
      case "object" =>
        if v.VObj? {
          var more := ValidateObjectAt(schema, v, name + ".");
          errs := errs + more;
        }
      case "array" =>
        if v.VArr? {
          var more := ValidateArray(schema, v, name);
          errs := errs + more;
        }
      case _ =>
    }
  }

  method ValidateArray(schema: Schema, arr: Value, name: string) returns (errs: seq<Error>)
    requires arr.VArr?
    ensures errs == [] <==> AcceptsItems(schema, arr)
    decreases arr, 1
  {
    errs := [];
    match Get(schema, "items") {
      case Some(VObj(items)) =>
        for i := 0 to |arr.items|
          invariant errs == [] <==> forall j :: 0 <= j < i ==> AcceptsValue(items, arr.items[j])
        {
          var more := ValidateValue(items, arr.items[i], name + "[" + Decimal(i) + "]");
          errs := errs + more;
        }
      case _ =>
    }
  }
}
