/** Output-schema validation: the structural check every successful reply passed
    (`hdp_proto/capabilities.py`).  A value is JSON; a schema is the subset of JSON Schema the
    validator understands, every other schema being `Untyped`. */
module Capabilities {
  import opened Basics

  datatype Json =
    | Null
    | Bool(b: bool)
    | Int(i: int)
    | Float(r: real)
    | Str(s: string)
    | Arr(items: seq<Json>)
    | Obj(fields: map<string, Json>)

  /** `properties` keeps the order in which the source visits the entries. */
  datatype Schema =
    | Untyped
    | ObjectType(required: seq<string>, properties: seq<(string, Schema)>)
    | StringType
    | BooleanType
    | IntegerType
    | NumberType
    | ArrayType(elements: Option<Schema>)

  datatype Descriptor = Descriptor(name: string, version: int, output: Schema)

  /** One step of the `$.key[index]` path an error message carries. */
  datatype Step = Key(k: string) | Index(i: nat)

  datatype Verdict = Valid | Mismatch(path: seq<Step>)

  /** The validator itself: the first violation in visiting order, or `Valid`. */
  function Validate(schema: Schema, value: Json, path: seq<Step>): Verdict
    decreases schema, 1
  {
    match schema
    case Untyped => Valid
    case ObjectType(required, properties) =>
      if !value.Obj? then Mismatch(path)
      else if exists f :: f in required && f !in value.fields then Mismatch(path)
      else ValidateProperties(schema, value.fields, 0, path)
    case StringType => if value.Str? then Valid else Mismatch(path)
    case BooleanType => if value.Bool? then Valid else Mismatch(path)
    case IntegerType => if value.Int? then Valid else Mismatch(path)
    case NumberType => if value.Int? || value.Float? then Valid else Mismatch(path)
    case ArrayType(elements) =>
      if !value.Arr? then Mismatch(path)
      else if elements.None? then Valid
      else ValidateItems(schema, value.items, 0, path)
  }

  function ValidateProperties(schema: Schema, fields: map<string, Json>, from: nat, path: seq<Step>): Verdict
    requires schema.ObjectType? && from <= |schema.properties|
    decreases schema, 0, |schema.properties| - from
  {
    if from == |schema.properties| then Valid
    else
      var (key, sub) := schema.properties[from];
      var here := if key in fields then Validate(sub, fields[key], path + [Key(key)]) else Valid;
      if here.Mismatch? then here else ValidateProperties(schema, fields, from + 1, path)
  }

  function ValidateItems(schema: Schema, items: seq<Json>, from: nat, path: seq<Step>): Verdict
    requires schema.ArrayType? && schema.elements.Some? && from <= |items|
    decreases schema, 0, |items| - from
  {
    if from == |items| then Valid
    else
      var here := Validate(schema.elements.value, items[from], path + [Index(from)]);
      if here.Mismatch? then here else ValidateItems(schema, items, from + 1, path)
  }

  /** The meaning of a schema, with no notion of order, path or first error. */
  ghost predicate Conforms(schema: Schema, value: Json)
    decreases schema
  {
    match schema
    case Untyped => true
    case ObjectType(required, properties) =>
      && value.Obj?
      && (forall f :: f in required ==> f in value.fields)
      && (forall i :: 0 <= i < |properties| && properties[i].0 in value.fields ==>
            Conforms(properties[i].1, value.fields[properties[i].0]))
    case StringType => value.Str?
    case BooleanType => value.Bool?
    case IntegerType => value.Int?
    case NumberType => value.Int? || value.Float?
    case ArrayType(elements) =>
      && value.Arr?
      && (elements.Some? ==> forall i :: 0 <= i < |value.items| ==> Conforms(elements.value, value.items[i]))
  }

  /** The validator accepts exactly the conforming values. */
  lemma {:induction false} ValidateExact(schema: Schema, value: Json, path: seq<Step>)
    ensures Validate(schema, value, path).Valid? <==> Conforms(schema, value)
    decreases schema, 1
  {
    match schema
    case ObjectType(required, properties) =>
      if value.Obj? && forall f :: f in required ==> f in value.fields {
        PropertiesExact(schema, value.fields, 0, path);
      }
    case ArrayType(elements) =>
      if value.Arr? && elements.Some? {
        ItemsExact(schema, value.items, 0, path);
      }
    case _ =>
  }

  lemma {:induction false} PropertiesExact(schema: Schema, fields: map<string, Json>, from: nat, path: seq<Step>)
    requires schema.ObjectType? && from <= |schema.properties|
    ensures ValidateProperties(schema, fields, from, path).Valid? <==>
            forall i :: from <= i < |schema.properties| && schema.properties[i].0 in fields ==>
              Conforms(schema.properties[i].1, fields[schema.properties[i].0])
    decreases schema, 0, |schema.properties| - from
  {
    if from < |schema.properties| {
      var (key, sub) := schema.properties[from];
      if key in fields {
        ValidateExact(sub, fields[key], path + [Key(key)]);
      }
      PropertiesExact(schema, fields, from + 1, path);
    }
  }

  lemma {:induction false} ItemsExact(schema: Schema, items: seq<Json>, from: nat, path: seq<Step>)
    requires schema.ArrayType? && schema.elements.Some? && from <= |items|
    ensures ValidateItems(schema, items, from, path).Valid? <==>
            forall i :: from <= i < |items| ==> Conforms(schema.elements.value, items[i])
    decreases schema, 0, |items| - from
  {
    if from < |items| {
      ValidateExact(schema.elements.value, items[from], path + [Index(from)]);
      ItemsExact(schema, items, from + 1, path);
    }
  }

  /** The value itself, before looking inside it, is not what its schema asks for. */
  ghost predicate Fault(schema: Schema, value: Json) {
    match schema
    case Untyped => false
    case ObjectType(required, _) => !value.Obj? || exists f :: f in required && f !in value.fields
    case StringType => !value.Str?
    case BooleanType => !value.Bool?
    case IntegerType => !value.Int?
    case NumberType => !value.Int? && !value.Float?
    case ArrayType(_) => !value.Arr?
  }

  /** Following `trail` from a value, under the sub-schemas met on the way, ends at a fault. */
  ghost predicate FaultAt(schema: Schema, value: Json, trail: seq<Step>)
    decreases |trail|
  {
    if trail == [] then Fault(schema, value)
    else
      match trail[0]
      case Key(k) =>
        && schema.ObjectType? && value.Obj? && k in value.fields
        && exists i :: 0 <= i < |schema.properties| && schema.properties[i].0 == k
                       && FaultAt(schema.properties[i].1, value.fields[k], trail[1..])
      case Index(i) =>
        && schema.ArrayType? && schema.elements.Some? && value.Arr? && i < |value.items|
        && FaultAt(schema.elements.value, value.items[i], trail[1..])
  }

  /** The path of a reported mismatch leads to a place where the value really is at fault. */
  lemma {:induction false} MismatchNamesAFault(schema: Schema, value: Json, path: seq<Step>)
    requires Validate(schema, value, path).Mismatch?
    ensures var found := Validate(schema, value, path).path;
            path <= found && FaultAt(schema, value, found[|path|..])
    decreases schema, 1
  {
    var found := Validate(schema, value, path).path;
    if found == path {
      assert found[|path|..] == [];
    }
    match schema
    case ObjectType(required, properties) =>
      if value.Obj? && forall f :: f in required ==> f in value.fields {
        PropertyMismatch(schema, value, 0, path);
      }
    case ArrayType(elements) =>
      if value.Arr? && elements.Some? {
        ItemMismatch(schema, value, 0, path);
      }
    case _ =>
  }

  lemma {:induction false} PropertyMismatch(schema: Schema, value: Json, from: nat, path: seq<Step>)
    requires schema.ObjectType? && from <= |schema.properties| && value.Obj?
    requires ValidateProperties(schema, value.fields, from, path).Mismatch?
    ensures var found := ValidateProperties(schema, value.fields, from, path).path;
            path <= found && FaultAt(schema, value, found[|path|..])
    decreases schema, 0, |schema.properties| - from
  {
    var (key, sub) := schema.properties[from];
    var inner := path + [Key(key)];
    if key in value.fields && Validate(sub, value.fields[key], inner).Mismatch? {
      MismatchNamesAFault(sub, value.fields[key], inner);
      var found := Validate(sub, value.fields[key], inner).path;
      var trail := found[|path|..];
      assert inner <= found && found[..|inner|] == inner;
      assert trail[0] == Key(key) && trail[1..] == found[|inner|..];
      assert schema.properties[from].0 == key && FaultAt(schema.properties[from].1, value.fields[key], trail[1..]);
    } else {
      PropertyMismatch(schema, value, from + 1, path);
    }
  }

  lemma {:induction false} ItemMismatch(schema: Schema, value: Json, from: nat, path: seq<Step>)
    requires schema.ArrayType? && schema.elements.Some? && value.Arr? && from <= |value.items|
    requires ValidateItems(schema, value.items, from, path).Mismatch?
    ensures var found := ValidateItems(schema, value.items, from, path).path;
            path <= found && FaultAt(schema, value, found[|path|..])
    decreases schema, 0, |value.items| - from
  {
    var inner := path + [Index(from)];
    if Validate(schema.elements.value, value.items[from], inner).Mismatch? {
      MismatchNamesAFault(schema.elements.value, value.items[from], inner);
      var found := Validate(schema.elements.value, value.items[from], inner).path;
      var trail := found[|path|..];
      assert inner <= found && found[..|inner|] == inner;
      assert trail[0] == Index(from) && trail[1..] == found[|inner|..];
    } else {
      ItemMismatch(schema, value, from + 1, path);
    }
  }
}
