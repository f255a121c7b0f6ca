/**
  Projection of a typed Python declaration to a schema, validation of a value
  against a schema, and decoding of a value into the declared type.
*/
module Schema {
  import opened Wrappers

  // -------------------------------------------------------------- vocabulary

  /** A Python value; the keys of a dict are unique and keep their order. */
  datatype Value =
    | Int(i: int)
    | Float(r: real)
    | NonFinite
    | Text(text: string)
    | Truth(b: bool)
    | Nothing
    | Array(items: seq<Value>)
    | Dict(entries: seq<Entry>)
    | Instance(attributes: seq<Entry>)

  datatype Entry = Entry(key: string, value: Value)

  datatype Primitive = Integer | Number | String | Boolean | Null

  /** What a field or class can be declared as; Other stands for every unsupported annotation. */
  datatype Type = Plain(primitive: Primitive) | ListOf(item: Type) | Record(fields: seq<Field>, initOnly: seq<Parameter>) | Other

  /** A parameter of the constructor that is not a field (InitVar); an optional one has a default. */
  datatype Parameter = Parameter(name: string, optional: bool)

  datatype Default = Missing | Given(value: Value) | Factory

  datatype Field = Field(
    name: string,
    declared: Type,
    minimum: Option<real>,
    maximum: Option<real>,
    unknownMetadata: bool,
    default: Default,
    init: bool)

  datatype Node =
    | Leaf(kind: Primitive, minimum: Option<real>, maximum: Option<real>)
    | ArrayOf(items: Node)
    | ObjectOf(properties: seq<Property>, required: seq<string>, additional: bool)

  datatype Property = Property(name: string, node: Node)

  datatype Error = TypeInvalid | RangeInvalid | Required | Unknown | SchemaInvalid | NotConstructible

  datatype Result<T> = Ok(value: T) | Err(error: Error)

  const MAXIMUM_DEPTH := 32

  // -------------------------------------------------------------- validation

  predicate TypeMatches(node: Node, v: Value) {
    match node
    case ObjectOf(_, _, _) => v.Dict?
    case ArrayOf(_) => v.Array?
    case Leaf(Integer, _, _) => v.Int?
    case Leaf(Number, _, _) => v.Int? || v.Float? || v.NonFinite?
    case Leaf(String, _, _) => v.Text?
    case Leaf(Boolean, _, _) => v.Truth?
    case Leaf(Null, _, _) => v.Nothing?
  }

  predicate InBounds(x: real, minimum: Option<real>, maximum: Option<real>) {
    (minimum.Some? ==> minimum.value <= x) && (maximum.Some? ==> x <= maximum.value)
  }

  /** A finite number, of 64 bits when it is an integer, within the bounds. */
  predicate InRange(v: Value, minimum: Option<real>, maximum: Option<real>) {
    match v
    case Int(i) => -0x8000_0000_0000_0000 <= i <= 0xFFFF_FFFF_FFFF_FFFF && InBounds(i as real, minimum, maximum)
    case Float(r) => InBounds(r, minimum, maximum)
    case _ => false
  }

  predicate HasKey(entries: seq<Entry>, key: string) {
    exists i :: 0 <= i < |entries| && entries[i].key == key
  }

  function Lookup(properties: seq<Property>, name: string): (r: Option<Node>)
    ensures r.Some? ==> exists i :: 0 <= i < |properties| && properties[i] == Property(name, r.value)
    ensures r.None? ==> forall i :: 0 <= i < |properties| ==> properties[i].name != name
  {
    if properties == [] then None
    else if properties[0].name == name then
      assert properties[0] == Property(name, properties[0].node);
      Some(properties[0].node)
    else
      var r := Lookup(properties[1..], name);
      assert r.Some? ==> exists i :: 0 <= i < |properties| - 1 && properties[1..][i] == Property(name, r.value);
      assert forall i :: 0 <= i < |properties| - 1 ==> properties[1..][i] == properties[i + 1];
      r
  }

  /** The first error, if any. */
  function Validate(node: Node, v: Value): Option<Error>
    decreases v, 1
  {
    if !TypeMatches(node, v) then Some(TypeInvalid)
    else
      match node
      case Leaf(kind, minimum, maximum) =>
        if (kind.Integer? || kind.Number?) && !InRange(v, minimum, maximum) then Some(RangeInvalid) else None
      case ObjectOf(_, required, _) =>
        if exists i :: 0 <= i < |required| && !HasKey(v.entries, required[i]) then Some(Required)
        else ValidateEntries(node, v, 0)
      case ArrayOf(items) => ValidateItems(items, v, 0)
  }

  function ValidateEntries(node: Node, v: Value, i: nat): Option<Error>
    requires node.ObjectOf? && v.Dict? && i <= |v.entries|
    decreases v, 0, |v.entries| - i
  {
    if i == |v.entries| then None
    else
      var property := Lookup(node.properties, v.entries[i].key);
      var error :=
        if property.None? then if node.additional then None else Some(Unknown)
        else Validate(property.value, v.entries[i].value);
      if error.Some? then error else ValidateEntries(node, v, i + 1)
  }

  function ValidateItems(items: Node, v: Value, i: nat): Option<Error>
    requires v.Array? && i <= |v.items|
    decreases v, 0, |v.items| - i
  {
    if i == |v.items| then None
    else
      var error := Validate(items, v.items[i]);
      if error.Some? then error else ValidateItems(items, v, i + 1)
  }

  // -------------------------------------------------------------- projection

  predicate IsNumeric(node: Node) {
    node.Leaf? && (node.kind.Integer? || node.kind.Number?)
  }

  /** The schema of one field: of its type, with its own bounds; its default has to satisfy it. */
  function FieldNode(f: Field, depth: nat): Result<Node>
    decreases f, 1
  {
    match SchemaFor(f.declared, depth + 1)
    case Err(e) => Err(e)
    case Ok(plain) =>
      if f.unknownMetadata || ((f.minimum.Some? || f.maximum.Some?) && !IsNumeric(plain)) then Err(SchemaInvalid)
      else
        var node := if IsNumeric(plain) then plain.(minimum := f.minimum, maximum := f.maximum) else plain;
        match f.default
        case Missing => Ok(node)
        case Factory => Err(SchemaInvalid)
        case Given(value) =>
          var error := Validate(node, value);
          if error.Some? then Err(error.value) else Ok(node)
  }

  function SchemaFor(t: Type, depth: nat): (r: Result<Node>)
    ensures r.Ok? ==> (t.Plain? <==> r.value.Leaf?) && (t.ListOf? <==> r.value.ArrayOf?) && (t.Record? <==> r.value.ObjectOf?)
    decreases t, 0
  {
    if depth > MAXIMUM_DEPTH then Err(SchemaInvalid)
    else
      match t
      case Plain(primitive) => Ok(Leaf(primitive, None, None))
      case ListOf(item) =>
        (match SchemaFor(item, depth + 1)
         case Err(e) => Err(e)
         case Ok(items) => Ok(ArrayOf(items)))
      case Record(fields, _) => RecordNode(fields, depth)
      case Other => Err(SchemaInvalid)
  }

  function RecordNode(fields: seq<Field>, depth: nat): (r: Result<Node>)
    ensures r.Ok? ==> r.value.ObjectOf? && !r.value.additional
    decreases fields, 0
  {
    if fields == [] then Ok(ObjectOf([], [], false))
    else
      var k := |fields| - 1;
      match RecordNode(fields[..k], depth)
      case Err(e) => Err(e)
      case Ok(before) =>
        match FieldNode(fields[k], depth)
        case Err(e) => Err(e)
        case Ok(node) => Ok(Extended(before, fields[k], node))
  }

  function Extended(before: Node, f: Field, node: Node): Node
    requires before.ObjectOf?
  {
    ObjectOf(before.properties + [Property(f.name, node)],
             if f.default.Missing? then before.required + [f.name] else before.required, before.additional)
  }

  // ---------------------------------------------------------------- decoding

  function IndexOf(fields: seq<Field>, name: string): (r: Option<nat>)
    ensures r.Some? ==> r.value < |fields| && fields[r.value].name == name
    ensures r.None? ==> forall i :: 0 <= i < |fields| ==> fields[i].name != name
  {
    if fields == [] then None
    else if fields[|fields| - 1].name == name then Some(|fields| - 1)
    else IndexOf(fields[..|fields| - 1], name)
  }

  function ValueOf(entries: seq<Entry>, key: string): (v: Value)
    requires HasKey(entries, key)
    ensures exists i :: 0 <= i < |entries| && entries[i] == Entry(key, v)
  {
    if entries[0].key == key then
      assert entries[0] == Entry(key, entries[0].value);
      entries[0].value
    else
      assert forall i :: 0 < i < |entries| ==> entries[1..][i - 1] == entries[i];
      ValueOf(entries[1..], key)
  }

  function Decode(t: Type, v: Value): Result<Value>
    decreases v, 1
  {
    match SchemaFor(t, 0)
    case Err(e) => Err(e)
    case Ok(node) =>
      var error := Validate(node, v);
      if error.Some? then Err(error.value)
      else
        match t
        case Record(fields, initOnly) =>
          (match DecodeEntries(fields, v, 0)
           case Err(e) => Err(e)
           case Ok(given) => Construct(fields, initOnly, given))
        case ListOf(item) =>
          (match DecodeItems(item, v, 0)
           case Err(e) => Err(e)
           case Ok(items) => Ok(Array(items)))
        case _ => Ok(v)
  }

  function DecodeItems(item: Type, v: Value, i: nat): Result<seq<Value>>
    requires v.Array? && i <= |v.items|
    decreases v, 0, |v.items| - i
  {
    if i == |v.items| then Ok([])
    else
      match Decode(item, v.items[i])
      case Err(e) => Err(e)
      case Ok(first) =>
        match DecodeItems(item, v, i + 1)
        case Err(e) => Err(e)
        case Ok(rest) => Ok([first] + rest)
  }

  function DecodeEntries(fields: seq<Field>, v: Value, i: nat): Result<seq<Entry>>
    requires v.Dict? && i <= |v.entries|
    decreases v, 0, |v.entries| - i
  {
    if i == |v.entries| then Ok([])
    else
      match IndexOf(fields, v.entries[i].key)
      case None => Err(NotConstructible)
      case Some(k) =>
        match Decode(fields[k].declared, v.entries[i].value)
        case Err(e) => Err(e)
        case Ok(first) =>
          match DecodeEntries(fields, v, i + 1)
          case Err(e) => Err(e)
          case Ok(rest) => Ok([Entry(v.entries[i].key, first)] + rest)
  }

  /** The constructor takes this keyword argument. */
  predicate TakesArgument(fields: seq<Field>, name: string) {
    var k := IndexOf(fields, name);
    k.Some? && fields[k.value].init
  }

  predicate AllOptional(initOnly: seq<Parameter>) {
    forall i :: 0 <= i < |initOnly| ==> initOnly[i].optional
  }

  /** Calling the class with keyword arguments: a TypeError for one that it does not take, or for a required one that is missing. */
  function Construct(fields: seq<Field>, initOnly: seq<Parameter>, given: seq<Entry>): Result<Value> {
    if exists i :: 0 <= i < |given| && !TakesArgument(fields, given[i].key) then Err(NotConstructible)
    else if !AllOptional(initOnly) then Err(NotConstructible)
    else
      match Attributes(fields, given)
      case Err(e) => Err(e)
      case Ok(attributes) => Ok(Instance(attributes))
  }

  function Attributes(fields: seq<Field>, given: seq<Entry>): Result<seq<Entry>> {
    if fields == [] then Ok([])
    else
      var k := |fields| - 1;
      var name := fields[k].name;
      match Attributes(fields[..k], given)
      case Err(e) => Err(e)
      case Ok(before) =>
        if HasKey(given, name) then Ok(before + [Entry(name, ValueOf(given, name))])
        else if fields[k].default.Given? then Ok(before + [Entry(name, fields[k].default.value)])
        else if fields[k].init then Err(NotConstructible)
        else Ok(before)
  }

  // --------------------------------------------- what decoding is to achieve

  /** What Python itself asks of the declared fields: unique names, no mutable defaults. */
  predicate Declarable(t: Type)
    decreases t
  {
    match t
    case ListOf(item) => Declarable(item)
    case Record(fields, _) =>
      && (forall i, j :: 0 <= i < j < |fields| ==> fields[i].name != fields[j].name)
      && (forall i :: 0 <= i < |fields| ==>
            && Declarable(fields[i].declared)
            && (fields[i].default.Given? ==> !fields[i].default.value.Array? && !fields[i].default.value.Dict?))
    case _ => true
  }

  /** Nothing in the value goes to a field that its constructor does not take, and no constructor asks for more. */
  predicate Constructible(t: Type, v: Value)
    decreases t
  {
    match t
    case ListOf(item) => v.Array? ==> forall i :: 0 <= i < |v.items| ==> Constructible(item, v.items[i])
    case Record(fields, initOnly) =>
      && AllOptional(initOnly)
      && (v.Dict? ==> forall i :: 0 <= i < |v.entries| ==>
            var k := IndexOf(fields, v.entries[i].key);
            k.Some? ==> fields[k.value].init && Constructible(fields[k.value].declared, v.entries[i].value))
    case _ => true
  }

  /** Every listed field is a parameter of its constructor, and no constructor asks for more. */
  predicate PlainlyInitialised(t: Type)
    decreases t
  {
    match t
    case ListOf(item) => PlainlyInitialised(item)
    case Record(fields, initOnly) =>
      && AllOptional(initOnly)
      && (forall k :: 0 <= k < |fields| ==> fields[k].init && PlainlyInitialised(fields[k].declared))
    case _ => true
  }

  predicate UniqueKeys(v: Value)
    decreases v
  {
    match v
    case Array(items) => forall i :: 0 <= i < |items| ==> UniqueKeys(items[i])
    case Dict(entries) =>
      && (forall i, j :: 0 <= i < j < |entries| ==> entries[i].key != entries[j].key)
      && (forall i :: 0 <= i < |entries| ==> UniqueKeys(entries[i].value))
    case _ => true
  }

  /** A primitive of the declared type, in the range of the wire format. */
  predicate IsA(primitive: Primitive, v: Value) {
    match primitive
    case Integer => v.Int? && -0x8000_0000_0000_0000 <= v.i < 0x1_0000_0000_0000_0000
    case Number => v.Float? || (v.Int? && -0x8000_0000_0000_0000 <= v.i < 0x1_0000_0000_0000_0000)
    case String => v.Text?
    case Boolean => v.Truth?
    case Null => v.Nothing?
  }

  /** A number no less than the minimum and no more than the maximum, where there is one. */
  predicate WithinOwnBounds(f: Field, v: Value) {
    && (f.minimum.Some? || f.maximum.Some? ==> v.Int? || v.Float?)
    && (v.Int? && f.minimum.Some? ==> !(v.i as real < f.minimum.value))
    && (v.Int? && f.maximum.Some? ==> !(v.i as real > f.maximum.value))
    && (v.Float? && f.minimum.Some? ==> !(v.r < f.minimum.value))
    && (v.Float? && f.maximum.Some? ==> !(v.r > f.maximum.value))
  }

  /** `r` is `v` read as a `t`: nothing coerced, every field there and within its own bounds, defaults included. */
  ghost predicate Reads(t: Type, v: Value, r: Value)
    decreases t
  {
    match t
    case Plain(primitive) => r == v && IsA(primitive, v)
    case ListOf(item) =>
      && v.Array? && r.Array? && |r.items| == |v.items|
      && (forall i :: 0 <= i < |v.items| ==> Reads(item, v.items[i], r.items[i]))
    case Record(fields, _) =>
      && v.Dict? && r.Instance? && |r.attributes| == |fields|
      && (forall i :: 0 <= i < |v.entries| ==> IndexOf(fields, v.entries[i].key).Some?)
      && (forall k :: 0 <= k < |fields| ==>
            && r.attributes[k].key == fields[k].name && WithinOwnBounds(fields[k], r.attributes[k].value)
            && (if HasKey(v.entries, fields[k].name) then
                  Reads(fields[k].declared, ValueOf(v.entries, fields[k].name), r.attributes[k].value)
                else fields[k].default == Given(r.attributes[k].value) && IsDefault(fields[k], r.attributes[k].value)))
    case Other => false
  }

  /** Only a primitive can have a default, and it is one of that primitive's values. */
  predicate IsDefault(f: Field, v: Value) {
    f.declared.Plain? && IsA(f.declared.primitive, v)
  }

  // ------------------------------------------------------------------ lemmas

  /** Projection does not depend on the depth, as long as it is allowed. */
  lemma {:induction false} Shallower(t: Type, depth: nat, less: nat)
    requires less <= depth && SchemaFor(t, depth).Ok?
    ensures SchemaFor(t, less) == SchemaFor(t, depth)
    decreases t, 0
  {
    match t
    case ListOf(item) => Shallower(item, depth + 1, less + 1);
    case Record(fields, _) => ShallowerRecord(fields, depth, less);
    case _ =>
  }

  lemma {:induction false} ShallowerRecord(fields: seq<Field>, depth: nat, less: nat)
    requires less <= depth && RecordNode(fields, depth).Ok?
    ensures RecordNode(fields, less) == RecordNode(fields, depth)
    decreases fields, 0
  {
    if fields != [] {
      var k := |fields| - 1;
      ShallowerRecord(fields[..k], depth, less);
      Shallower(fields[k].declared, depth + 1, less + 1);
    }
  }

  /** The node of a declared field, and whether the field is required. */
  lemma {:induction false} FieldOfRecord(fields: seq<Field>, depth: nat, k: nat)
    requires RecordNode(fields, depth).Ok? && k < |fields|
    requires forall i, j :: 0 <= i < j < |fields| ==> fields[i].name != fields[j].name
    ensures FieldNode(fields[k], depth).Ok?
    ensures Lookup(RecordNode(fields, depth).value.properties, fields[k].name) == Some(FieldNode(fields[k], depth).value)
  {
    var last := |fields| - 1;
    var before, node := RecordNode(fields[..last], depth).value, FieldNode(fields[last], depth).value;
    NamesOfRecord(fields[..last], depth, fields[k].name);
    LookupAppends(before.properties, Property(fields[last].name, node), fields[k].name);
    if k < last {
      assert fields[..last][k] == fields[k];
      FieldOfRecord(fields[..last], depth, k);
    } else {
      IndexOfFirst(fields[..last], fields[k].name);
    }
  }

  lemma {:induction false} LookupAppends(properties: seq<Property>, last: Property, name: string)
    ensures Lookup(properties + [last], name) ==
            (if Lookup(properties, name).Some? then Lookup(properties, name)
             else if last.name == name then Some(last.node) else None)
  {
    var all := properties + [last];
    if properties == [] {
      assert all == [last] && all[1..] == [];
    } else {
      assert all[1..] == properties[1..] + [last];
      LookupAppends(properties[1..], last, name);
    }
  }

  lemma {:induction false} IndexOfFirst(fields: seq<Field>, name: string)
    requires forall i :: 0 <= i < |fields| ==> fields[i].name != name
    ensures IndexOf(fields, name).None?
  {
  }

  /** The properties are the fields. */
  lemma {:induction false} NamesOfRecord(fields: seq<Field>, depth: nat, name: string)
    requires RecordNode(fields, depth).Ok?
    ensures Lookup(RecordNode(fields, depth).value.properties, name).Some? <==> IndexOf(fields, name).Some?
  {
    if fields != [] {
      var last := |fields| - 1;
      NamesOfRecord(fields[..last], depth, name);
      LookupAppends(RecordNode(fields[..last], depth).value.properties,
                    Property(fields[last].name, FieldNode(fields[last], depth).value), name);
    }
  }

  lemma {:induction false} RequiredOfRecord(fields: seq<Field>, depth: nat, name: string)
    requires RecordNode(fields, depth).Ok?
    ensures name in RecordNode(fields, depth).value.required <==>
            exists k :: 0 <= k < |fields| && fields[k].name == name && fields[k].default.Missing?
  {
    if fields != [] {
      var last := |fields| - 1;
      RequiredOfRecord(fields[..last], depth, name);
      if k :| 0 <= k < |fields| && fields[k].name == name && fields[k].default.Missing? {
        assert k < last ==> fields[..last][k] == fields[k];
      }
      if k :| 0 <= k < last && fields[..last][k].name == name && fields[..last][k].default.Missing? {
        assert fields[k] == fields[..last][k];
      }
    }
  }

  lemma {:induction false} ItemsValid(items: Node, v: Value, i: nat)
    requires v.Array? && i <= |v.items|
    ensures ValidateItems(items, v, i).None? <==> forall j :: i <= j < |v.items| ==> Validate(items, v.items[j]).None?
    decreases |v.items| - i
  {
    if i < |v.items| {
      ItemsValid(items, v, i + 1);
    }
  }

  /** How a leaf is checked: the type first, then the 64 bits of an integer, that a float is finite, and the bounds. */
  lemma LeafErrors(kind: Primitive, minimum: Option<real>, maximum: Option<real>, v: Value)
    ensures Validate(Leaf(kind, minimum, maximum), v) ==
            match kind
            case String => if v.Text? then None else Some(TypeInvalid)
            case Boolean => if v.Truth? then None else Some(TypeInvalid)
            case Null => if v.Nothing? then None else Some(TypeInvalid)
            case _ =>
              match v
              case Int(i) =>
                if (i < -0x8000_0000_0000_0000 || i >= 0x1_0000_0000_0000_0000)
                   || (minimum.Some? && i as real < minimum.value) || (maximum.Some? && i as real > maximum.value)
                then Some(RangeInvalid) else None
              case Float(r) =>
                if kind.Integer? then Some(TypeInvalid)
                else if (minimum.Some? && r < minimum.value) || (maximum.Some? && r > maximum.value) then Some(RangeInvalid)
                else None
              case NonFinite => if kind.Integer? then Some(TypeInvalid) else Some(RangeInvalid)
              case _ => Some(TypeInvalid)
  {
  }

  /** Of an array, the error is that of the first item that has one. */
  lemma {:induction false} FirstItemError(items: Node, v: Value, i: nat)
    requires v.Array? && i <= |v.items| && ValidateItems(items, v, i).Some?
    ensures exists j :: i <= j < |v.items| && ValidateItems(items, v, i) == Validate(items, v.items[j]) &&
                        forall k :: i <= k < j ==> Validate(items, v.items[k]).None?
    decreases |v.items| - i
  {
    hide Validate;
    if Validate(items, v.items[i]).None? { FirstItemError(items, v, i + 1); }
  }

  /** Of an object, a missing name comes first, then the first entry that is unknown or invalid. */
  lemma {:induction false} FirstEntryError(node: Node, v: Value, i: nat)
    requires node.ObjectOf? && v.Dict? && i <= |v.entries| && ValidateEntries(node, v, i).Some?
    ensures exists j :: i <= j < |v.entries| && ValidateEntries(node, v, i) == EntryError(node, v.entries[j]) &&
                        forall k :: i <= k < j ==> EntryError(node, v.entries[k]).None?
    decreases |v.entries| - i
  {
    hide Validate, Lookup;
    if EntryError(node, v.entries[i]).None? { FirstEntryError(node, v, i + 1); }
  }

  function EntryError(node: Node, e: Entry): Option<Error>
    requires node.ObjectOf?
  {
    if Lookup(node.properties, e.key).Some? then Validate(Lookup(node.properties, e.key).value, e.value)
    else if node.additional then None else Some(Unknown)
  }

  lemma ContainerErrors(node: Node, v: Value)
    ensures node.ArrayOf? ==> (Validate(node, v) == Some(TypeInvalid) <==> !v.Array? || ValidateItems(node.items, v, 0) == Some(TypeInvalid))
    ensures node.ArrayOf? && v.Array? ==> Validate(node, v) == ValidateItems(node.items, v, 0)
    ensures node.ObjectOf? && !v.Dict? ==> Validate(node, v) == Some(TypeInvalid)
    ensures node.ObjectOf? && v.Dict? ==>
              Validate(node, v) == if exists name :: name in node.required && forall i :: 0 <= i < |v.entries| ==> v.entries[i].key != name
                                   then Some(Required) else ValidateEntries(node, v, 0)
  {
    if node.ObjectOf? && v.Dict? {
      hide ValidateEntries;
      if i :| 0 <= i < |node.required| && !HasKey(v.entries, node.required[i]) {
        assert node.required[i] in node.required;
      }
    }
  }

  predicate EntryValid(node: Node, e: Entry)
    requires node.ObjectOf?
  {
    var property := Lookup(node.properties, e.key);
    if property.None? then node.additional else Validate(property.value, e.value).None?
  }

  lemma {:induction false} EntriesValid(node: Node, v: Value, i: nat)
    requires node.ObjectOf? && v.Dict? && i <= |v.entries|
    ensures ValidateEntries(node, v, i).None? <==> forall j :: i <= j < |v.entries| ==> EntryValid(node, v.entries[j])
    decreases |v.entries| - i
  {
    if i < |v.entries| {
      EntriesValid(node, v, i + 1);
    }
  }

  /** The node of a field accepts what the schema of its type accepts, within the field's own bounds. */
  lemma FieldIsStricter(f: Field, depth: nat, v: Value)
    requires FieldNode(f, depth).Ok?
    ensures SchemaFor(f.declared, 0).Ok?
    ensures Validate(FieldNode(f, depth).value, v).None? <==>
            Validate(SchemaFor(f.declared, 0).value, v).None? && WithinOwnBounds(f, v)
  {
    Shallower(f.declared, depth + 1, 0);
  }

  /** A default that passed validation is a primitive of the declared type, within the field's own bounds. */
  lemma DefaultIsTyped(f: Field, depth: nat)
    requires FieldNode(f, depth).Ok? && f.default.Given? && !f.default.value.Array? && !f.default.value.Dict?
    ensures IsDefault(f, f.default.value) && WithinOwnBounds(f, f.default.value)
  {
    FieldIsStricter(f, depth, f.default.value);
  }

  /** How many types a type nests in one another. */
  function Nesting(t: Type): nat
    decreases t, 0
  {
    match t
    case ListOf(item) => 1 + Nesting(item)
    case Record(fields, _) => NestingOf(fields)
    case _ => 0
  }

  function NestingOf(fields: seq<Field>): nat
    decreases fields, 0
  {
    if fields == [] then 0
    else
      var before, last := NestingOf(fields[..|fields| - 1]), 1 + Nesting(fields[|fields| - 1].declared);
      if before > last then before else last
  }

  /** Primitives, lists and records of such types; bounds only on numbers, no other metadata, no factories, and only good defaults. */
  predicate Projectable(t: Type)
    decreases t
  {
    match t
    case Plain(_) => true
    case Other => false
    case ListOf(item) => Projectable(item)
    case Record(fields, _) => forall k :: 0 <= k < |fields| ==> Projectable(fields[k].declared) && WellDeclared(fields[k])
  }

  predicate WellDeclared(f: Field) {
    && !f.unknownMetadata
    && (f.minimum.Some? || f.maximum.Some? ==> f.declared == Plain(Integer) || f.declared == Plain(Number))
    && match f.default
       case Missing => true
       case Factory => false
       case Given(v) => IsDefault(f, v) && WithinOwnBounds(f, v)
  }

  /** A declaration has a schema exactly if it is supported throughout and nests at most 32 types. */
  lemma {:induction false} ProjectsExactly(t: Type, depth: nat)
    requires Declarable(t)
    ensures SchemaFor(t, depth).Ok? <==> depth + Nesting(t) <= 32 && Projectable(t)
    decreases t, 0
  {
    match t
    case ListOf(item) => ProjectsExactly(item, depth + 1);
    case Record(fields, _) =>
      hide RecordNode, WellDeclared;
      RecordProjectsExactly(fields, depth);
    case _ =>
  }

  lemma {:induction false} RecordProjectsExactly(fields: seq<Field>, depth: nat)
    requires forall k :: 0 <= k < |fields| ==> Declarable(fields[k].declared) && Immutable(fields[k].default)
    ensures RecordNode(fields, depth).Ok? <==>
              && (NestingOf(fields) == 0 || depth + NestingOf(fields) <= 32)
              && forall k :: 0 <= k < |fields| ==> Projectable(fields[k].declared) && WellDeclared(fields[k])
    decreases fields, 0
  {
    hide Projectable, WellDeclared, FieldNode, Nesting, Declarable, Immutable;
    if fields != [] {
      var last := |fields| - 1;
      assert forall k :: 0 <= k < last ==> fields[..last][k] == fields[k];
      RecordProjectsExactly(fields[..last], depth);
      FieldProjectsExactly(fields[last], depth);
    }
  }

  predicate Immutable(d: Default) {
    d.Given? ==> !d.value.Array? && !d.value.Dict?
  }

  lemma {:induction false} FieldProjectsExactly(f: Field, depth: nat)
    requires Declarable(f.declared) && Immutable(f.default)
    ensures FieldNode(f, depth).Ok? <==> depth + 1 + Nesting(f.declared) <= 32 && Projectable(f.declared) && WellDeclared(f)
    decreases f, 1
  {
    hide Declarable, Nesting, Projectable, RecordNode;
    ProjectsExactly(f.declared, depth + 1);
  }

  predicate DistinctNames(fields: seq<Field>) {
    forall i, j :: 0 <= i < j < |fields| ==> fields[i].name != fields[j].name
  }

  /** A value of a field that is given: of a known field, valid for its type, within its bounds. */
  predicate GivenValid(fields: seq<Field>, e: Entry) {
    var k := IndexOf(fields, e.key);
    && k.Some?
    && SchemaFor(fields[k.value].declared, 0).Ok?
    && Validate(SchemaFor(fields[k.value].declared, 0).value, e.value).None?
    && WithinOwnBounds(fields[k.value], e.value)
  }

  lemma EntryOfField(fields: seq<Field>, e: Entry)
    requires RecordNode(fields, 0).Ok? && DistinctNames(fields)
    ensures EntryValid(RecordNode(fields, 0).value, e) <==> GivenValid(fields, e)
  {
    NamesOfRecord(fields, 0, e.key);
    var k := IndexOf(fields, e.key);
    if k.Some? {
      FieldOfRecord(fields, 0, k.value);
      FieldIsStricter(fields[k.value], 0, e.value);
    }
  }

  /** Every field without a default is in the dict. */
  predicate AllGiven(fields: seq<Field>, entries: seq<Entry>) {
    forall k :: 0 <= k < |fields| && fields[k].default.Missing? ==> HasKey(entries, fields[k].name)
  }

  lemma RequiredAreGiven(fields: seq<Field>, entries: seq<Entry>)
    requires RecordNode(fields, 0).Ok?
    ensures var required := RecordNode(fields, 0).value.required;
            (forall i :: 0 <= i < |required| ==> HasKey(entries, required[i])) <==> AllGiven(fields, entries)
  {
    hide RecordNode, HasKey;
    var required := RecordNode(fields, 0).value.required;
    if AllGiven(fields, entries) {
      forall i | 0 <= i < |required|
        ensures HasKey(entries, required[i])
      {
        RequiredOfRecord(fields, 0, required[i]);
        var k :| 0 <= k < |fields| && fields[k].name == required[i] && fields[k].default.Missing?;
      }
    }
    if forall i :: 0 <= i < |required| ==> HasKey(entries, required[i]) {
      forall k | 0 <= k < |fields| && fields[k].default.Missing?
        ensures HasKey(entries, fields[k].name)
      {
        RequiredOfRecord(fields, 0, fields[k].name);
        var i :| 0 <= i < |required| && required[i] == fields[k].name;
      }
    }
  }

  lemma RecordValid(fields: seq<Field>, v: Value)
    requires RecordNode(fields, 0).Ok? && DistinctNames(fields) && v.Dict?
    ensures Validate(RecordNode(fields, 0).value, v).None? <==>
            AllGiven(fields, v.entries) && (forall i :: 0 <= i < |v.entries| ==> GivenValid(fields, v.entries[i]))
  {
    hide GivenValid, EntryValid, RecordNode, HasKey, AllGiven;
    EntriesValid(RecordNode(fields, 0).value, v, 0);
    RequiredAreGiven(fields, v.entries);
    hide ValidateEntries;
    forall i | 0 <= i < |v.entries|
      ensures EntryValid(RecordNode(fields, 0).value, v.entries[i]) <==> GivenValid(fields, v.entries[i])
    {
      EntryOfField(fields, v.entries[i]);
    }
  }

  // The entries that decoding hands to the constructor.

  lemma {:induction false} DecodedEntries(fields: seq<Field>, v: Value, i: nat)
    requires v.Dict? && i <= |v.entries|
    requires forall j :: i <= j < |v.entries| ==> DecodedField(fields, v.entries[j]).Some?
    ensures var r := DecodeEntries(fields, v, i);
            r.Ok? && |r.value| == |v.entries| - i &&
            forall j :: i <= j < |v.entries| ==> Some(r.value[j - i]) == DecodedField(fields, v.entries[j])
    decreases |v.entries| - i
  {
    hide Decode, Validate, IndexOf;
    if i < |v.entries| {
      DecodedEntries(fields, v, i + 1);
      var r, rest := DecodeEntries(fields, v, i), DecodeEntries(fields, v, i + 1);
      forall j | i < j < |v.entries|
        ensures Some(r.value[j - i]) == DecodedField(fields, v.entries[j])
      {
        assert r.value[j - i] == rest.value[j - (i + 1)];
      }
    }
  }

  function DecodedField(fields: seq<Field>, e: Entry): Option<Entry> {
    var k := IndexOf(fields, e.key);
    if k.None? then None
    else
      var r := Decode(fields[k.value].declared, e.value);
      if r.Ok? then Some(Entry(e.key, r.value)) else None
  }

  lemma {:induction false} DecodedItems(item: Type, v: Value, i: nat)
    requires v.Array? && i <= |v.items|
    requires forall j :: i <= j < |v.items| ==> Decode(item, v.items[j]).Ok?
    ensures var r := DecodeItems(item, v, i);
            r.Ok? && |r.value| == |v.items| - i &&
            forall j :: i <= j < |v.items| ==> r.value[j - i] == Decode(item, v.items[j]).value
    decreases |v.items| - i
  {
    hide Decode, Validate;
    if i < |v.items| {
      DecodedItems(item, v, i + 1);
      var r, rest := DecodeItems(item, v, i), DecodeItems(item, v, i + 1);
      forall j | i < j < |v.items|
        ensures r.value[j - i] == Decode(item, v.items[j]).value
      {
        assert r.value[j - i] == rest.value[j - (i + 1)];
      }
    }
  }

  /** The constructor finds the decoded value of a name where the dict had its value. */
  lemma {:induction false} SameKeys(fields: seq<Field>, entries: seq<Entry>, given: seq<Entry>, k: nat)
    requires |given| == |entries| && forall j :: 0 <= j < |given| ==> Some(given[j]) == DecodedField(fields, entries[j])
    requires k < |fields| && IndexOf(fields, fields[k].name) == Some(k)
    ensures HasKey(given, fields[k].name) <==> HasKey(entries, fields[k].name)
    ensures HasKey(entries, fields[k].name) ==>
      Decode(fields[k].declared, ValueOf(entries, fields[k].name)) == Ok(ValueOf(given, fields[k].name))
    decreases |entries|
  {
    var name := fields[k].name;
    assert forall j :: 0 <= j < |given| ==> given[j].key == entries[j].key;
    if HasKey(entries, name) && entries[0].key != name {
      assert forall j :: 0 <= j < |given| - 1 ==> given[1..][j] == given[j + 1] && entries[1..][j] == entries[j + 1];
      SameKeys(fields, entries[1..], given[1..], k);
    }
  }

  lemma {:induction false} IndexOfDistinct(fields: seq<Field>, k: nat)
    requires DistinctNames(fields) && k < |fields|
    ensures IndexOf(fields, fields[k].name) == Some(k)
  {
  }

  lemma {:induction false} AttributesOf(fields: seq<Field>, given: seq<Entry>)
    requires forall k :: 0 <= k < |fields| ==> HasKey(given, fields[k].name) || fields[k].default.Given?
    ensures var r := Attributes(fields, given);
            r.Ok? && |r.value| == |fields| &&
            forall k :: 0 <= k < |fields| ==>
              r.value[k] == Entry(fields[k].name, if HasKey(given, fields[k].name) then ValueOf(given, fields[k].name)
                                                  else fields[k].default.value)
  {
    if fields != [] {
      var last := |fields| - 1;
      assert forall k :: 0 <= k < last ==> fields[..last][k] == fields[k];
      AttributesOf(fields[..last], given);
    }
  }

  // ------------------------------------------------------------ main results

  /** The decoded entries, and that each of them reads its entry. */
  ghost predicate AllRead(fields: seq<Field>, entries: seq<Entry>, given: seq<Entry>) {
    && |given| == |entries|
    && (forall j :: 0 <= j < |given| ==> Some(given[j]) == DecodedField(fields, entries[j]))
    && (forall j :: 0 <= j < |given| ==>
          var k := IndexOf(fields, entries[j].key);
          k.Some? && Reads(fields[k.value].declared, entries[j].value, given[j].value))
  }

  /** Bounds are only accepted on numbers, and a number is decoded as it is. */
  lemma BoundsSurviveDecoding(f: Field, v: Value)
    requires FieldNode(f, 0).Ok? && WithinOwnBounds(f, v) && Decode(f.declared, v).Ok?
    ensures WithinOwnBounds(f, Decode(f.declared, v).value)
  {
  }

  lemma GivenAttribute(fields: seq<Field>, v: Value, given: seq<Entry>, k: nat)
    requires DistinctNames(fields) && RecordNode(fields, 0).Ok? && v.Dict? && k < |fields|
    requires Validate(RecordNode(fields, 0).value, v).None? && AllRead(fields, v.entries, given)
    requires HasKey(v.entries, fields[k].name)
    ensures HasKey(given, fields[k].name)
    ensures WithinOwnBounds(fields[k], ValueOf(given, fields[k].name))
    ensures Reads(fields[k].declared, ValueOf(v.entries, fields[k].name), ValueOf(given, fields[k].name))
  {
    var name := fields[k].name;
    IndexOfDistinct(fields, k);
    SameKeys(fields, v.entries, given, k);
    RecordValid(fields, v);
    FieldOfRecord(fields, 0, k);
    hide Reads, Decode, Validate, RecordNode, FieldNode, WithinOwnBounds;
    var i :| 0 <= i < |v.entries| && v.entries[i] == Entry(name, ValueOf(v.entries, name));
    assert GivenValid(fields, v.entries[i]);
    BoundsSurviveDecoding(fields[k], v.entries[i].value);
    assert Some(given[i]) == DecodedField(fields, v.entries[i]);
  }

  lemma DefaultAttribute(fields: seq<Field>, v: Value, given: seq<Entry>, k: nat)
    requires Declarable(Record(fields, [])) && RecordNode(fields, 0).Ok? && v.Dict? && k < |fields|
    requires Validate(RecordNode(fields, 0).value, v).None? && AllRead(fields, v.entries, given)
    requires !HasKey(v.entries, fields[k].name)
    ensures !HasKey(given, fields[k].name) && fields[k].default.Given?
    ensures WithinOwnBounds(fields[k], fields[k].default.value) && IsDefault(fields[k], fields[k].default.value)
  {
    hide Reads, Decode;
    IndexOfDistinct(fields, k);
    SameKeys(fields, v.entries, given, k);
    RecordValid(fields, v);
    FieldOfRecord(fields, 0, k);
    assert fields[k].default.Given?;
    DefaultIsTyped(fields[k], 0);
  }

  /** The record case, once the entries are decoded. */
  lemma RecordReads(fields: seq<Field>, initOnly: seq<Parameter>, v: Value, given: seq<Entry>)
    requires Declarable(Record(fields, [])) && RecordNode(fields, 0).Ok? && v.Dict?
    requires AllOptional(initOnly) && forall i :: 0 <= i < |v.entries| ==> TakesArgument(fields, v.entries[i].key)
    requires Validate(RecordNode(fields, 0).value, v).None? && AllRead(fields, v.entries, given)
    ensures var r := Construct(fields, initOnly, given); r.Ok? && Reads(Record(fields, initOnly), v, r.value)
  {
    hide AllOptional, TakesArgument, Validate, RecordNode, FieldNode, WithinOwnBounds, IsDefault, Decode, HasKey, ValueOf, Attributes;
    assert DistinctNames(fields);
    forall i | 0 <= i < |v.entries|
      ensures IndexOf(fields, v.entries[i].key).Some? && given[i].key == v.entries[i].key
    {
    }
    forall k | 0 <= k < |fields|
      ensures HasKey(given, fields[k].name) <==> HasKey(v.entries, fields[k].name)
      ensures if HasKey(v.entries, fields[k].name) then
                && WithinOwnBounds(fields[k], ValueOf(given, fields[k].name))
                && Reads(fields[k].declared, ValueOf(v.entries, fields[k].name), ValueOf(given, fields[k].name))
              else
                && fields[k].default.Given? && WithinOwnBounds(fields[k], fields[k].default.value)
                && IsDefault(fields[k], fields[k].default.value)
    {
      if HasKey(v.entries, fields[k].name) {
        GivenAttribute(fields, v, given, k);
      } else {
        DefaultAttribute(fields, v, given, k);
      }
    }
    AttributesOf(fields, given);
  }

  /** Once the whole value is valid, no re-validation and no construction on the way down can fail. */
  lemma {:induction false} ValidDecodes(t: Type, v: Value)
    requires Declarable(t) && UniqueKeys(v) && SchemaFor(t, 0).Ok? && Validate(SchemaFor(t, 0).value, v).None?
    requires Constructible(t, v)
    ensures Decode(t, v).Ok? && Reads(t, v, Decode(t, v).value)
    decreases t, 0
  {
    match t
    case Plain(_) =>
    case ListOf(item) =>
      Shallower(item, 1, 0);
      ValidItemsDecode(item, v);
      hide Validate, DecodeItems;
    case Record(fields, initOnly) =>
      assert Declarable(Record(fields, []));
      ValidEntriesDecode(fields, initOnly, v);
      hide DecodeEntries, Construct, AllRead, Validate, Declarable;
      RecordReads(fields, initOnly, v, DecodeEntries(fields, v, 0).value);
  }

  lemma {:induction false} ValidItemsDecode(item: Type, v: Value)
    requires Declarable(item) && UniqueKeys(v) && v.Array? && SchemaFor(item, 0).Ok?
    requires forall i :: 0 <= i < |v.items| ==> Constructible(item, v.items[i])
    requires ValidateItems(SchemaFor(item, 0).value, v, 0).None?
    ensures var r := DecodeItems(item, v, 0);
            r.Ok? && |r.value| == |v.items| && forall i :: 0 <= i < |v.items| ==> Reads(item, v.items[i], r.value[i])
    decreases item, 1
  {
    hide Validate, Decode, Reads, SchemaFor, ValidateItems, DecodeItems, Declarable;
    ItemsValid(SchemaFor(item, 0).value, v, 0);
    assert forall i :: 0 <= i < |v.items| ==> UniqueKeys(v.items[i]);
    hide UniqueKeys;
    forall i | 0 <= i < |v.items|
      ensures Decode(item, v.items[i]).Ok? && Reads(item, v.items[i], Decode(item, v.items[i]).value)
    {
      ValidDecodes(item, v.items[i]);
    }
    DecodedItems(item, v, 0);
  }

  lemma {:induction false} ValidEntriesDecode(fields: seq<Field>, initOnly: seq<Parameter>, v: Value)
    requires Declarable(Record(fields, [])) && UniqueKeys(v) && RecordNode(fields, 0).Ok? && v.Dict?
    requires Constructible(Record(fields, initOnly), v)
    requires Validate(RecordNode(fields, 0).value, v).None?
    ensures DecodeEntries(fields, v, 0).Ok? && AllRead(fields, v.entries, DecodeEntries(fields, v, 0).value)
    decreases fields, 1
  {
    hide Validate, Decode, Reads, RecordNode, SchemaFor;
    RecordValid(fields, v);
    forall i | 0 <= i < |v.entries|
      ensures DecodedField(fields, v.entries[i]).Some? &&
              var k := IndexOf(fields, v.entries[i].key).value;
              Reads(fields[k].declared, v.entries[i].value, DecodedField(fields, v.entries[i]).value.value)
    {
      assert GivenValid(fields, v.entries[i]);
      ValidDecodes(fields[IndexOf(fields, v.entries[i].key).value].declared, v.entries[i].value);
    }
    DecodedEntries(fields, v, 0);
  }

  lemma {:induction false} FoundInOrder(entries: seq<Entry>, i: nat)
    requires i < |entries| && forall j, k :: 0 <= j < k < |entries| ==> entries[j].key != entries[k].key
    ensures HasKey(entries, entries[i].key) && ValueOf(entries, entries[i].key) == entries[i].value
  {
    if i > 0 {
      assert forall j :: 0 <= j < |entries| - 1 ==> entries[1..][j] == entries[j + 1];
      FoundInOrder(entries[1..], i - 1);
    }
  }

  /** A value that can be read as the declared type passes validation. */
  lemma {:induction false} ReadableIsValid(t: Type, v: Value, r: Value)
    requires Declarable(t) && UniqueKeys(v) && SchemaFor(t, 0).Ok? && Reads(t, v, r)
    ensures Validate(SchemaFor(t, 0).value, v).None?
    decreases t
  {
    match t
    case Plain(_) =>
    case ListOf(item) =>
      Shallower(item, 1, 0);
      ItemsValid(SchemaFor(item, 0).value, v, 0);
      forall i | 0 <= i < |v.items|
        ensures Validate(SchemaFor(item, 0).value, v.items[i]).None?
      {
        ReadableIsValid(item, v.items[i], r.items[i]);
      }
    case Record(fields, _) =>
      RecordValid(fields, v);
      forall i | 0 <= i < |v.entries|
        ensures GivenValid(fields, v.entries[i])
      {
        var k := IndexOf(fields, v.entries[i].key).value;
        FoundInOrder(v.entries, i);
        FieldOfRecord(fields, 0, k);
        FieldIsStricter(fields[k], 0, v.entries[i].value);
        ReadableIsValid(fields[k].declared, v.entries[i].value, r.attributes[k].value);
        BoundsAreOnTheValue(fields[k], v.entries[i].value, r.attributes[k].value);
      }
  }

  lemma BoundsAreOnTheValue(f: Field, v: Value, r: Value)
    requires FieldNode(f, 0).Ok? && Reads(f.declared, v, r) && WithinOwnBounds(f, r)
    ensures WithinOwnBounds(f, v)
  {
  }

  lemma {:induction false} ReadingIsUnique(t: Type, v: Value, a: Value, b: Value)
    requires Reads(t, v, a) && Reads(t, v, b)
    ensures a == b
    decreases t
  {
    match t
    case Plain(_) =>
    case ListOf(item) =>
      forall i | 0 <= i < |v.items|
        ensures a.items[i] == b.items[i]
      {
        ReadingIsUnique(item, v.items[i], a.items[i], b.items[i]);
      }
    case Record(fields, _) =>
      forall k | 0 <= k < |fields|
        ensures a.attributes[k] == b.attributes[k]
      {
        if HasKey(v.entries, fields[k].name) {
          ReadingIsUnique(fields[k].declared, ValueOf(v.entries, fields[k].name), a.attributes[k].value, b.attributes[k].value);
        }
      }
  }

  lemma {:induction false} ItemsDecoded(item: Type, v: Value, i: nat)
    requires v.Array? && i <= |v.items| && DecodeItems(item, v, i).Ok?
    ensures forall j :: i <= j < |v.items| ==> Decode(item, v.items[j]).Ok?
    decreases |v.items| - i
  {
    hide Decode;
    if i < |v.items| {
      ItemsDecoded(item, v, i + 1);
    }
  }

  lemma {:induction false} EntriesDecoded(fields: seq<Field>, v: Value, i: nat)
    requires v.Dict? && i <= |v.entries| && DecodeEntries(fields, v, i).Ok?
    ensures |DecodeEntries(fields, v, i).value| == |v.entries| - i
    ensures forall j :: i <= j < |v.entries| ==>
              && IndexOf(fields, v.entries[j].key).Some?
              && Decode(fields[IndexOf(fields, v.entries[j].key).value].declared, v.entries[j].value).Ok?
              && DecodeEntries(fields, v, i).value[j - i].key == v.entries[j].key
    decreases |v.entries| - i
  {
    hide Decode, IndexOf;
    if i < |v.entries| {
      EntriesDecoded(fields, v, i + 1);
      var r, rest := DecodeEntries(fields, v, i).value, DecodeEntries(fields, v, i + 1).value;
      forall j | i < j < |v.entries|
        ensures r[j - i].key == v.entries[j].key
      {
        assert r[j - i] == rest[j - (i + 1)];
      }
    }
  }

  /** Whatever decodes was constructible. */
  lemma {:induction false} DecodedWasConstructible(t: Type, v: Value)
    requires Decode(t, v).Ok?
    ensures Constructible(t, v)
    decreases t
  {
    match t
    case ListOf(item) =>
      ItemsDecoded(item, v, 0);
      forall i | 0 <= i < |v.items|
        ensures Constructible(item, v.items[i])
      {
        DecodedWasConstructible(item, v.items[i]);
      }
    case Record(fields, initOnly) =>
      EntriesDecoded(fields, v, 0);
      var given := DecodeEntries(fields, v, 0).value;
      hide Decode, Validate, SchemaFor;
      forall i | 0 <= i < |v.entries|
        ensures var k := IndexOf(fields, v.entries[i].key);
                k.Some? && fields[k.value].init && Constructible(fields[k.value].declared, v.entries[i].value)
      {
        assert given[i].key == v.entries[i].key && TakesArgument(fields, given[i].key);
        DecodedWasConstructible(fields[IndexOf(fields, v.entries[i].key).value].declared, v.entries[i].value);
      }
    case _ =>
  }

  /**
    Decoding succeeds exactly when validation does and every constructor on the way
    takes what it is given; its result is then the one reading of the value.
  */
  lemma DecodeIsReading(t: Type, v: Value)
    requires Declarable(t) && UniqueKeys(v) && SchemaFor(t, 0).Ok?
    ensures Decode(t, v).Ok? <==> Validate(SchemaFor(t, 0).value, v).None? && Constructible(t, v)
    ensures Validate(SchemaFor(t, 0).value, v).Some? ==> Decode(t, v) == Err(Validate(SchemaFor(t, 0).value, v).value)
    ensures forall r :: Decode(t, v) == Ok(r) <==> Reads(t, v, r) && Constructible(t, v)
  {
    var valid := Validate(SchemaFor(t, 0).value, v).None?;
    if Decode(t, v).Ok? { DecodedWasConstructible(t, v); }
    if valid && Constructible(t, v) {
      ValidDecodes(t, v);
    }
    hide Constructible, Reads, Validate, SchemaFor, Declarable, UniqueKeys;
    forall r | Reads(t, v, r) && Constructible(t, v)
      ensures Decode(t, v) == Ok(r)
    {
      ReadableIsValid(t, v, r);
      ReadingIsUnique(t, v, r, Decode(t, v).value);
    }
  }

  lemma {:induction false} PlainIsConstructible(t: Type, v: Value)
    requires PlainlyInitialised(t)
    ensures Constructible(t, v)
    decreases t
  {
    match t
    case ListOf(item) =>
      if v.Array? {
        forall i | 0 <= i < |v.items|
          ensures Constructible(item, v.items[i])
        {
          PlainIsConstructible(item, v.items[i]);
        }
      }
    case Record(fields, _) =>
      if v.Dict? {
        forall i | 0 <= i < |v.entries| && IndexOf(fields, v.entries[i].key).Some?
          ensures var k := IndexOf(fields, v.entries[i].key).value;
                  fields[k].init && Constructible(fields[k].declared, v.entries[i].value)
        {
          PlainIsConstructible(fields[IndexOf(fields, v.entries[i].key).value].declared, v.entries[i].value);
        }
      }
    case _ =>
  }

  /** For declarations of ordinary fields, decoding succeeds if and only if validation does. */
  lemma DecodesIffValid(t: Type, v: Value)
    requires Declarable(t) && UniqueKeys(v) && SchemaFor(t, 0).Ok? && PlainlyInitialised(t)
    ensures Decode(t, v).Ok? <==> Validate(SchemaFor(t, 0).value, v).None?
  {
    DecodeIsReading(t, v);
    PlainIsConstructible(t, v);
  }

  /** A field declared with init=False and a default: a value for it passes validation, and constructing fails. */
  lemma InitFalseFails()
    ensures var f := Field("a", Plain(Integer), None, None, false, Given(Int(1)), false);
            var t, v := Record([f], []), Dict([Entry("a", Int(2))]);
            && Declarable(t) && UniqueKeys(v) && SchemaFor(t, 0).Ok?
            && Validate(SchemaFor(t, 0).value, v).None? && Decode(t, v).Err?
  {
    var f := Field("a", Plain(Integer), None, None, false, Given(Int(1)), false);
    var t, v := Record([f], []), Dict([Entry("a", Int(2))]);
    assert FieldNode(f, 0) == Ok(Leaf(Integer, None, None));
    assert RecordNode([], 0) == Ok(ObjectOf([], [], false));
    assert [f][..0] == [];
    var leaf := Property("a", Leaf(Integer, None, None));
    assert Extended(ObjectOf([], [], false), f, leaf.node) == ObjectOf([leaf], [], false) by { assert [] + [leaf] == [leaf]; }
    assert RecordNode([f], 0) == Ok(ObjectOf([Property("a", Leaf(Integer, None, None))], [], false));
    var node := SchemaFor(t, 0).value;
    assert Lookup(node.properties, "a") == Some(Leaf(Integer, None, None));
    assert ValidateEntries(node, v, 1).None?;
    assert ValidateEntries(node, v, 0).None?;
    assert IndexOf([f], "a") == Some(0);
    assert !Constructible(t, v);
    if Decode(t, v).Ok? { DecodedWasConstructible(t, v); }
  }

  /** A required init-only parameter: the empty dict passes validation, and constructing fails. */
  lemma RequiredInitOnlyFails()
    ensures var t, v := Record([], [Parameter("x", false)]), Dict([]);
            && Declarable(t) && UniqueKeys(v) && SchemaFor(t, 0).Ok?
            && Validate(SchemaFor(t, 0).value, v).None? && Decode(t, v).Err?
  {
    var t, v := Record([], [Parameter("x", false)]), Dict([]);
    assert !AllOptional([Parameter("x", false)]) by { assert ![Parameter("x", false)][0].optional; }
    if Decode(t, v).Ok? { DecodedWasConstructible(t, v); }
  }

  // ------------------------------------------------------------------- loops

  /** schema_for */
  method BuildSchema(t: Type, depth: nat) returns (r: Result<Node>)
    ensures r == SchemaFor(t, depth)
    decreases t
  {
    if depth > MAXIMUM_DEPTH {
      return Err(SchemaInvalid);
    }
    match t
    case Plain(primitive) =>
      r := Ok(Leaf(primitive, None, None));
    case ListOf(item) =>
      var items := BuildSchema(item, depth + 1);
      r := if items.Ok? then Ok(ArrayOf(items.value)) else Err(items.error);
    case Other =>
      r := Err(SchemaInvalid);
    case Record(fields, _) =>
      var properties, required := [], [];
      assert fields[..0] == [];
      for i := 0 to |fields|
        invariant RecordNode(fields[..i], depth) == Ok(ObjectOf(properties, required, false))
      {
        var item := fields[i];
        StepOfRecord(fields, depth, i);
        var plain := BuildSchema(item.declared, depth + 1);
        if plain.Err? {
          return Err(plain.error);
        }
        var node := plain.value;
        if item.unknownMetadata || ((item.minimum.Some? || item.maximum.Some?) && !IsNumeric(node)) {
          return Err(SchemaInvalid);
        }
        if IsNumeric(node) {
          node := node.(minimum := item.minimum, maximum := item.maximum);
        }
        if item.default.Given? {
          var error := Check(node, item.default.value);
          if error.Some? {
            return Err(error.value);
          }
        } else if item.default.Factory? {
          return Err(SchemaInvalid);
        } else {
          required := required + [item.name];
        }
        properties := properties + [Property(item.name, node)];
      }
      assert fields[..|fields|] == fields;
      r := Ok(ObjectOf(properties, required, false));
  }

  /** An error in one field is the error of the record. */
  lemma {:induction false} StepOfRecord(fields: seq<Field>, depth: nat, i: nat)
    requires i < |fields| && RecordNode(fields[..i], depth).Ok?
    ensures RecordNode(fields[..i + 1], depth) ==
            (match FieldNode(fields[i], depth)
             case Err(e) => Err(e)
             case Ok(node) => Ok(Extended(RecordNode(fields[..i], depth).value, fields[i], node)))
    ensures FieldNode(fields[i], depth).Err? ==> RecordNode(fields, depth) == Err(FieldNode(fields[i], depth).error)
    decreases |fields|
  {
    assert fields[..i + 1][..i] == fields[..i];
    var k := |fields| - 1;
    if i < k {
      assert fields[..k][..i] == fields[..i] && fields[..k][..i + 1] == fields[..i + 1];
      StepOfRecord(fields[..k], depth, i);
    } else {
      assert fields[..i + 1] == fields;
    }
  }

  /** validate */
  method Check(node: Node, v: Value) returns (error: Option<Error>)
    ensures error == Validate(node, v)
    decreases v
  {
    if !TypeMatches(node, v) {
      return Some(TypeInvalid);
    }
    match node
    case Leaf(kind, minimum, maximum) =>
      error := if (kind.Integer? || kind.Number?) && !InRange(v, minimum, maximum) then Some(RangeInvalid) else None;
    case ObjectOf(properties, required, additional) =>
      for i := 0 to |required|
        invariant forall k :: 0 <= k < i ==> HasKey(v.entries, required[k])
      {
        if !HasKey(v.entries, required[i]) {
          return Some(Required);
        }
      }
      for i := 0 to |v.entries|
        invariant ValidateEntries(node, v, 0) == ValidateEntries(node, v, i)
      {
        var property := Lookup(properties, v.entries[i].key);
        if property.None? {
          if !additional {
            return Some(Unknown);
          }
        } else {
          var inner := Check(property.value, v.entries[i].value);
          if inner.Some? {
            return inner;
          }
        }
      }
      error := None;
    case ArrayOf(items) =>
      for i := 0 to |v.items|
        invariant ValidateItems(items, v, 0) == ValidateItems(items, v, i)
      {
        var inner := Check(items, v.items[i]);
        if inner.Some? {
          return inner;
        }
      }
      error := None;
  }
}
