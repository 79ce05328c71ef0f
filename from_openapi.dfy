/**
 * The OpenAPI 3 to configuration generator (src/core/generator/from_openapi.rs):
 * how a Schema Object becomes a type name, how inline schemas are queued and
 * later defined as `Type<n>`, how `allOf` gathers properties, how a schema
 * becomes a type, a union or an enum, and how an operation's path template
 * ("Path Templating" in the OpenAPI 3 specification) becomes an HTTP path
 * with `{{args.<name>}}` placeholders and query parameters.
 */
module FromOpenapi {
  import opened Wrappers
  import opened Strings
  import opened ConfigModel

  datatype SchemaType = Boolean | Integer | Number | String | Array | Object

  /** `schema_type_to_string`: both numeric kinds become `Int`. */
  function SchemaTypeToString(t: SchemaType): (r: string)
    ensures r == "Int" <==> t == Integer || t == Number
    ensures r == "Boolean" <==> t == Boolean
    ensures r == "String" <==> t == String
    ensures r == "Array" <==> t == Array
    ensures r == "Object" <==> t == Object
  {
    match t
    case Boolean => "Boolean"
    case Integer => "Int"
    case Number => "Int"
    case String => "String"
    case Array => "Array"
    case Object => "Object"
  }

  /** `schema_to_primitive_type`: the scalar name, or none for arrays and objects. */
  function SchemaToPrimitiveType(t: SchemaType): (r: Option<string>)
    ensures r.None? <==> t == Array || t == Object
    ensures r.Some? ==> r.value == SchemaTypeToString(t)
  {
    match t
    case Array => None
    case Object => None
    case _ => Some(SchemaTypeToString(t))
  }

  datatype TypeName = ListOf(inner: TypeName) | Name(name: string)

  /** The name at the bottom of a type name. */
  function Innermost(t: TypeName): string
  {
    match t
    case ListOf(inner) => Innermost(inner)
    case Name(n) => n
  }

  /** `TypeName::into_tuple`; `None` where the source panics on a list of lists. */
  function IntoTuple(t: TypeName): (r: Option<(bool, string)>)
    ensures r.None? <==> t.ListOf? && t.inner.ListOf?
    ensures r.Some? ==> r.value.0 == t.ListOf? && r.value.1 == Innermost(t)
  {
    match t
    case ListOf(inner) => if inner.Name? then Some((true, inner.name)) else None
    case Name(n) => Some((false, n))
  }

  /** The type name a `(list, name)` pair stands for. */
  function FromTuple(list: bool, name: string): TypeName
  {
    if list then ListOf(Name(name)) else Name(name)
  }

  /** `into_tuple` and `FromTuple` are inverse on the names it accepts. */
  lemma IntoTupleRoundTrip(t: TypeName, list: bool, name: string)
    ensures IntoTuple(FromTuple(list, name)) == Some((list, name))
    ensures IntoTuple(t) == Some((list, name)) ==> FromTuple(list, name) == t
  {
  }

  // ----- schemas -----

  /** A value of an `enum` list; only strings are accepted. */
  datatype EnumValue = StringValue(s: string) | OtherValue

  /** The parts of an OpenAPI Schema Object the generator reads. */
  datatype Schema = Schema(
    schemaType: Option<SchemaType>,
    items: Option<SchemaOrRef>,
    enumValues: seq<EnumValue>,
    additionalProperties: bool,
    properties: seq<(string, SchemaOrRef)>,
    required: seq<string>,
    allOf: seq<SchemaOrRef>,
    anyOf: seq<SchemaOrRef>,
    oneOf: seq<SchemaOrRef>,
    description: Option<string>)

  /** `ObjectOrReference<Schema>`. */
  datatype SchemaOrRef = Ref(refPath: string) | Inline(schema: Schema)

  /** The schemas a `$ref` can point to, keyed by the reference path. */
  datatype Spec = Spec(schemas: map<string, Schema>)

  /** The places where the generator panics. */
  datatype Panic = UnresolvedRef(path: string) | ListOfList | NonStringEnumValue | AllOfCycle

  /** `resolve(&spec).unwrap()`: an inline schema is itself; a reference must exist. */
  function Resolve(spec: Spec, r: SchemaOrRef): (res: Result<Schema, Panic>)
    ensures r.Inline? ==> res == Ok(r.schema)
    ensures r.Ref? ==> (res.Ok? <==> r.refPath in spec.schemas)
  {
    match r
    case Inline(s) => Ok(s)
    case Ref(p) => if p in spec.schemas then Ok(spec.schemas[p]) else Err(UnresolvedRef(p))
  }

  /** The text after the last `/`, or all of it. */
  function LastSegment(path: string): (r: string)
    ensures '/' !in r
    ensures '/' !in path ==> r == path
    ensures '/' in path ==> exists a :: path == a + "/" + r
  {
    match RSplitOnce(path, '/')
    case Some((a, b)) => assert path == a + "/" + b; b
    case None => path
  }

  /** `name_from_ref_path`: a reference is named by its last segment in Pascal case. */
  function NameFromRefPath(pascal: string -> string, r: SchemaOrRef): (n: Option<string>)
    ensures n.Some? <==> r.Ref?
    ensures r.Ref? ==> n.value == pascal(LastSegment(r.refPath))
  {
    match r
    case Ref(p) => Some(pascal(LastSegment(p)))
    case Inline(_) => None
  }

  predicate IsStringEnum(s: Schema)
  {
    s.schemaType == Some(String) && |s.enumValues| > 0
  }

  /** The scalar name of a schema's type, if it has a scalar type. */
  function PrimitiveOf(s: Schema): (r: Option<string>)
    ensures r.Some? <==> s.schemaType.Some? && s.schemaType.value in {Integer, Number, String, Boolean}
  {
    if s.schemaType.Some? then SchemaToPrimitiveType(s.schemaType.value) else None
  }

  /** `can_define_type`. */
  predicate CanDefineType(s: Schema): (r: bool)
    ensures IsStringEnum(s) ==> r
  {
    |s.properties| > 0 || |s.allOf| > 0 || |s.anyOf| > 0 || |s.oneOf| > 0 || |s.enumValues| > 0
  }

  /** The name `insert_inline_type` hands out when `n` schemas are queued. */
  function InlineName(n: nat): (r: string)
    ensures |r| > 4 && r[..4] == "Type" && r[4..] == NatToString(n)
    ensures ParseDecimal(r[4..]) == n
  {
    NatToStringParses(n);
    assert ("Type" + NatToString(n))[4..] == NatToString(n);
    "Type" + NatToString(n)
  }

  /** At most one queued schema, as a sequence. */
  function Optional(q: Option<Schema>): seq<Schema>
  {
    if q.Some? then [q.value] else []
  }

  /**
   * What `get_schema_type` answers for `s`, given the reference name
   * `name` and the name `inlineName` the next queued schema gets: the type
   * name and the schema it queues, if any. Its steps are, in order: an
   * `items` schema makes a list; a string enum is queued; a scalar type
   * names itself; `additionalProperties` means JSON; then the given name;
   * then a definable schema is queued; anything else is JSON.
   */
  function SchemaTypeOf(spec: Spec, pascal: string -> string, s: Schema, name: Option<string>,
                        inlineName: string): (r: Result<(TypeName, Option<Schema>), Panic>)
    ensures r.Ok? ==> (r.value.0.ListOf? <==> s.items.Some?)
    ensures r.Ok? && r.value.1.Some? ==> Innermost(r.value.0) == inlineName && CanDefineType(r.value.1.value)
    ensures r.Err? ==> s.items.Some?
    decreases s
  {
    match s.items
    case Some(element) =>
      (match Resolve(spec, element)
       case Err(e) => Err(e)
       case Ok(inner) =>
         if IsStringEnum(inner) then Ok((ListOf(Name(inlineName)), Some(inner)))
         else
           match element
           case Ref(path) => Ok((ListOf(Name(pascal(LastSegment(path)))), None))
           case Inline(t) =>
             if PrimitiveOf(t).Some? then Ok((ListOf(Name(PrimitiveOf(t).value)), None))
             else
               match SchemaTypeOf(spec, pascal, t, None, inlineName)
               case Err(e) => Err(e)
               case Ok((tn, q)) => Ok((ListOf(tn), q)))
    case None =>
      if IsStringEnum(s) then Ok((Name(inlineName), Some(s)))
      else if PrimitiveOf(s).Some? then Ok((Name(PrimitiveOf(s).value), None))
      else if s.additionalProperties then Ok((Name("JSON"), None))
      else if name.Some? then Ok((Name(name.value), None))
      else if CanDefineType(s) then Ok((Name(inlineName), Some(s)))
      else Ok((Name("JSON"), None))
  }

  /** The precedence of the steps of `get_schema_type` for a schema without `items`. */
  lemma SchemaTypePrecedence(spec: Spec, pascal: string -> string, s: Schema, name: Option<string>, inlineName: string)
    requires s.items.None?
    ensures var r := SchemaTypeOf(spec, pascal, s, name, inlineName);
            r.Ok?
            && (IsStringEnum(s) ==> r.value == (Name(inlineName), Some(s)))
            && (!IsStringEnum(s) && PrimitiveOf(s).Some? ==> r.value == (Name(PrimitiveOf(s).value), None))
            && (PrimitiveOf(s).None? && s.additionalProperties ==> r.value == (Name("JSON"), None))
            && (PrimitiveOf(s).None? && !s.additionalProperties && name.Some? ==> r.value == (Name(name.value), None))
            && (PrimitiveOf(s).None? && !s.additionalProperties && name.None? ==>
                  r.value == (if CanDefineType(s) then (Name(inlineName), Some(s)) else (Name("JSON"), None)))
  {
  }

  /**
   * `into_tuple` panics on `get_schema_type`'s answer exactly when the
   * `items` schema is an inline array schema that is neither a string
   * enum nor a scalar.
   */
  lemma SchemaTypeListOfList(spec: Spec, pascal: string -> string, s: Schema, name: Option<string>, inlineName: string)
    requires SchemaTypeOf(spec, pascal, s, name, inlineName).Ok?
    ensures IntoTuple(SchemaTypeOf(spec, pascal, s, name, inlineName).value.0).None?
            <==> s.items.Some? && s.items.value.Inline? && !IsStringEnum(s.items.value.schema)
                 && PrimitiveOf(s.items.value.schema).None? && s.items.value.schema.items.Some?
  {
  }

  // ----- allOf -----

  datatype AllOfAcc = AllOfAcc(properties: seq<(string, SchemaOrRef)>, required: set<string>)

  function SeqToSet(xs: seq<string>): set<string>
  {
    set x | x in xs
  }

  /**
   * `get_all_of_properties`: the required names of `s` and of every
   * `allOf` member, and the members' properties in order followed by the
   * own properties. A reference costs one unit of `fuel`; running out is
   * where the source recurses without end.
   */
  function AllOfProperties(spec: Spec, s: Schema, fuel: nat): (r: Result<AllOfAcc, Panic>)
    ensures r.Ok? ==> |s.properties| <= |r.value.properties|
                      && r.value.properties[|r.value.properties| - |s.properties|..] == s.properties
    ensures r.Ok? ==> SeqToSet(s.required) <= r.value.required
    decreases fuel, s, |s.allOf| + 1
  {
    match AllOfMembers(spec, s, 0, fuel)
    case Err(e) => Err(e)
    case Ok(acc) => Ok(AllOfAcc(acc.properties + s.properties, SeqToSet(s.required) + acc.required))
  }

  /** The `allOf` members of `s` from index `i` on. */
  function AllOfMembers(spec: Spec, s: Schema, i: nat, fuel: nat): Result<AllOfAcc, Panic>
    decreases fuel, s, |s.allOf| - i
  {
    if i >= |s.allOf| then Ok(AllOfAcc([], {}))
    else
      match AllOfMember(spec, s.allOf[i], fuel)
      case Err(e) => Err(e)
      case Ok(m) =>
        match AllOfMembers(spec, s, i + 1, fuel)
        case Err(e) => Err(e)
        case Ok(rest) => Ok(AllOfAcc(m.properties + rest.properties, m.required + rest.required))
  }

  /**
   * What one `allOf` member contributes: an inline schema is recursed
   * into, a reference is resolved (an unknown one panics) and recursed
   * into at the cost of one unit of `fuel`.
   */
  function AllOfMember(spec: Spec, m: SchemaOrRef, fuel: nat): Result<AllOfAcc, Panic>
    decreases fuel, m, 0
  {
    match m
    case Inline(t) => AllOfProperties(spec, t, fuel)
    case Ref(p) =>
      if fuel == 0 then Err(AllOfCycle)
      else if p !in spec.schemas then Err(UnresolvedRef(p))
      else AllOfProperties(spec, spec.schemas[p], fuel - 1)
  }

  /** Without `allOf` members the own properties and required names are all there is. */
  lemma AllOfNoMembers(spec: Spec, s: Schema, fuel: nat)
    requires |s.allOf| == 0
    ensures AllOfProperties(spec, s, fuel) == Ok(AllOfAcc(s.properties, SeqToSet(s.required)))
  {
    assert AllOfMembers(spec, s, 0, fuel) == Ok(AllOfAcc([], {}));
    assert [] + s.properties == s.properties;
    assert SeqToSet(s.required) + {} == SeqToSet(s.required);
  }

  /** An inline `allOf` member contributes all its properties and required names. */
  lemma {:induction false} AllOfInlineMember(spec: Spec, s: Schema, i: nat, j: nat, fuel: nat)
    requires i <= j < |s.allOf| && s.allOf[j].Inline?
    requires AllOfMembers(spec, s, i, fuel).Ok?
    ensures var m := AllOfProperties(spec, s.allOf[j].schema, fuel);
            m.Ok?
            && m.value.required <= AllOfMembers(spec, s, i, fuel).value.required
            && (forall p | p in m.value.properties :: p in AllOfMembers(spec, s, i, fuel).value.properties)
    decreases j - i
  {
    if i < j {
      AllOfInlineMember(spec, s, i + 1, j, fuel);
    }
  }

  /** A `$ref` member is resolved and everything it accumulates is part of the result. */
  lemma {:induction false} AllOfRefMember(spec: Spec, s: Schema, i: nat, j: nat, fuel: nat)
    requires i <= j < |s.allOf| && s.allOf[j].Ref?
    requires AllOfMembers(spec, s, i, fuel).Ok?
    ensures var p := s.allOf[j].refPath;
            fuel > 0 && p in spec.schemas
            && var m := AllOfProperties(spec, spec.schemas[p], fuel - 1);
               m.Ok?
               && m.value.required <= AllOfMembers(spec, s, i, fuel).value.required
               && (forall q | q in m.value.properties :: q in AllOfMembers(spec, s, i, fuel).value.properties)
    decreases j - i
  {
    if i < j {
      AllOfRefMember(spec, s, i + 1, j, fuel);
    }
  }

  /** An unknown `$ref` among the members makes the whole accumulation panic. */
  lemma {:induction false} AllOfUnresolvedRef(spec: Spec, s: Schema, j: nat, fuel: nat)
    requires j < |s.allOf| && s.allOf[j].Ref? && s.allOf[j].refPath !in spec.schemas
    ensures AllOfProperties(spec, s, fuel).Err?
  {
    if AllOfMembers(spec, s, 0, fuel).Ok? {
      AllOfRefMember(spec, s, 0, j, fuel);
    }
  }

  /**
   * The members' contributions in order, each computed on its own; the
   * first member that panics decides the error.
   */
  function AllOfContributions(spec: Spec, ms: seq<SchemaOrRef>, fuel: nat): (r: Result<seq<AllOfAcc>, Panic>)
    ensures r.Ok? ==> |r.value| == |ms|
    decreases |ms|
  {
    if ms == [] then Ok([])
    else
      match AllOfMember(spec, ms[0], fuel)
      case Err(e) => Err(e)
      case Ok(m) =>
        match AllOfContributions(spec, ms[1..], fuel)
        case Err(e) => Err(e)
        case Ok(cs) => Ok([m] + cs)
  }

  /** The properties of several contributions, one after the other. */
  function FlatProperties(cs: seq<AllOfAcc>): seq<(string, SchemaOrRef)>
  {
    if cs == [] then [] else cs[0].properties + FlatProperties(cs[1..])
  }

  /** The required names of several contributions together. */
  function UnionRequired(cs: seq<AllOfAcc>): set<string>
  {
    if cs == [] then {} else cs[0].required + UnionRequired(cs[1..])
  }

  /** The fold over the members from `i` on is the flattening of their contributions. */
  lemma {:induction false} AllOfMembersFlatten(spec: Spec, s: Schema, i: nat, fuel: nat)
    requires i <= |s.allOf|
    ensures AllOfMembers(spec, s, i, fuel)
            == match AllOfContributions(spec, s.allOf[i..], fuel)
               case Err(e) => Err(e)
               case Ok(cs) => Ok(AllOfAcc(FlatProperties(cs), UnionRequired(cs)))
    decreases |s.allOf| - i
  {
    if i < |s.allOf| {
      assert s.allOf[i..][0] == s.allOf[i];
      assert s.allOf[i..][1..] == s.allOf[i + 1..];
      AllOfMembersFlatten(spec, s, i + 1, fuel);
    } else {
      assert s.allOf[i..] == [];
    }
  }

  /**
   * The whole of `get_all_of_properties`: every member's properties in
   * member order, then the schema's own properties; the required names
   * of the schema and of every member.
   */
  lemma AllOfPropertiesOrder(spec: Spec, s: Schema, fuel: nat)
    ensures AllOfProperties(spec, s, fuel)
            == match AllOfContributions(spec, s.allOf, fuel)
               case Err(e) => Err(e)
               case Ok(cs) => Ok(AllOfAcc(FlatProperties(cs) + s.properties, SeqToSet(s.required) + UnionRequired(cs)))
  {
    AllOfMembersFlatten(spec, s, 0, fuel);
    assert s.allOf[0..] == s.allOf;
  }

  /** Every `$ref` reachable through the `allOf` members of `s` is ranked below `bound`. */
  predicate RefsBelow(s: Schema, rank: map<string, nat>, bound: nat)
    decreases s
  {
    forall k | 0 <= k < |s.allOf| ::
      match s.allOf[k]
      case Ref(q) => q in rank && rank[q] < bound
      case Inline(t) => RefsBelow(t, rank, bound)
  }

  /**
   * A ranking of the named schemas in which every schema's `allOf`
   * references point to lower ranks: the `allOf` graph has no cycle and
   * no dangling reference.
   */
  predicate Ranked(spec: Spec, rank: map<string, nat>)
  {
    forall q | q in rank :: q in spec.schemas && RefsBelow(spec.schemas[q], rank, rank[q])
  }

  lemma {:induction false} RefsBelowMono(s: Schema, rank: map<string, nat>, b: nat, b': nat)
    requires b <= b' && RefsBelow(s, rank, b)
    ensures RefsBelow(s, rank, b')
    decreases s
  {
    forall k | 0 <= k < |s.allOf| && s.allOf[k].Inline?
      ensures RefsBelow(s.allOf[k].schema, rank, b')
    {
      RefsBelowMono(s.allOf[k].schema, rank, b, b');
    }
  }

  /**
   * The fuel bound is only a stand-in for the recursion on cycles: when
   * the references of an acyclic document are ranked below `fuel` (a
   * topological order of the named schemas ranks them below
   * `|spec.schemas|`), the accumulation never runs out.
   */
  lemma {:induction false} AllOfTerminates(spec: Spec, rank: map<string, nat>, s: Schema, fuel: nat)
    requires Ranked(spec, rank) && RefsBelow(s, rank, fuel)
    ensures AllOfProperties(spec, s, fuel).Ok?
    decreases fuel, s, 1
  {
    AllOfMembersTerminate(spec, rank, s, 0, fuel);
  }

  lemma {:induction false} AllOfMembersTerminate(spec: Spec, rank: map<string, nat>, s: Schema, i: nat, fuel: nat)
    requires Ranked(spec, rank) && RefsBelow(s, rank, fuel)
    ensures AllOfMembers(spec, s, i, fuel).Ok?
    decreases fuel, s, 0, |s.allOf| - i
  {
    if i < |s.allOf| {
      match s.allOf[i] {
        case Inline(t) =>
          AllOfTerminates(spec, rank, t, fuel);
        case Ref(q) =>
          RefsBelowMono(spec.schemas[q], rank, rank[q], fuel - 1);
          AllOfTerminates(spec, rank, spec.schemas[q], fuel - 1);
      }
      AllOfMembersTerminate(spec, rank, s, i + 1, fuel);
    }
  }

  // ----- define_type -----

  datatype ConfigType = TypeDef(t: Type) | UnionDef(u: Union) | EnumDef(e: Enum)

  /**
   * The length of the inline queue after `pushed` more insertions into a
   * queue of `len` schemas: while frozen, insertions go to the other queue.
   */
  function QueueLen(frozen: bool, len: nat, pushed: seq<Schema>): nat
  {
    if frozen then len else len + |pushed|
  }

  /** The name the next queued schema gets after `pushed` more schemas were queued. */
  function NextInline(frozen: bool, len: nat, pushed: seq<Schema>): string
  {
    InlineName(QueueLen(frozen, len, pushed))
  }

  function PropertyNames(props: seq<(string, SchemaOrRef)>): set<string>
  {
    set k | 0 <= k < |props| :: props[k].0
  }

  /** One property as a field, and the schema its type queues. */
  function PropertyField(spec: Spec, pascal: string -> string, prop: (string, SchemaOrRef), required: bool,
                         withDoc: bool, inlineName: string): (r: Result<(Field, Option<Schema>), Panic>)
    ensures r.Ok? ==> r.value.0.required == required && r.value.0.args == map[]
                      && r.value.0.http.None? && r.value.0.grpc.None?
    ensures r.Ok? && r.value.1.Some? ==> CanDefineType(r.value.1.value)
  {
    match Resolve(spec, prop.1)
    case Err(e) => Err(e)
    case Ok(ps) =>
      match SchemaTypeOf(spec, pascal, ps, NameFromRefPath(pascal, prop.1), inlineName)
      case Err(e) => Err(e)
      case Ok((tn, q)) =>
        match IntoTuple(tn)
        case None => Err(ListOfList)
        case Some((list, typeOf)) =>
          Ok((Field(typeOf, list, required, map[], if withDoc then ps.description else None, None, None), q))
  }

  datatype FieldsAcc = FieldsAcc(fields: map<string, Field>, pushed: seq<Schema>)

  /**
   * What building one field yields for a property, given whether it is
   * required and the name the next queued schema gets.
   */
  type FieldBuilder = ((string, SchemaOrRef), bool, string) -> Result<(Field, Option<Schema>), Panic>

  /** The field builder of `define_type`, with or without the property descriptions. */
  function FieldAt(spec: Spec, pascal: string -> string, withDoc: bool): (r: FieldBuilder)
    ensures BuildsFields(r)
  {
    (p: (string, SchemaOrRef), required: bool, inlineName: string) => PropertyField(spec, pascal, p, required, withDoc, inlineName)
  }

  /** A built field is required as asked, and a schema it queues is definable. */
  ghost predicate BuildsFields(build: FieldBuilder)
  {
    forall p, required, inlineName :: build(p, required, inlineName).Ok? ==>
      build(p, required, inlineName).value.0.required == required
      && (build(p, required, inlineName).value.1.Some? ==> CanDefineType(build(p, required, inlineName).value.1.value))
  }

  /**
   * The fields built from `props` in order, a later property of the same
   * name replacing an earlier one, and the schemas queued on the way.
   */
  function PropertyFields(build: FieldBuilder, props: seq<(string, SchemaOrRef)>, required: set<string>,
                          frozen: bool, len: nat): Result<FieldsAcc, Panic>
    decreases |props|
  {
    if props == [] then Ok(FieldsAcc(map[], []))
    else
      var prefix := props[..|props| - 1];
      var p := props[|props| - 1];
      match PropertyFields(build, prefix, required, frozen, len)
      case Err(e) => Err(e)
      case Ok(acc) =>
        match build(p, p.0 in required, NextInline(frozen, len, acc.pushed))
        case Err(e) => Err(e)
        case Ok((f, q)) => Ok(FieldsAcc(acc.fields[p.0 := f], acc.pushed + Optional(q)))
  }

  lemma PropertyNamesSnoc(props: seq<(string, SchemaOrRef)>)
    requires |props| > 0
    ensures PropertyNames(props) == PropertyNames(props[..|props| - 1]) + {props[|props| - 1].0}
  {
    var prefix := props[..|props| - 1];
    assert forall k | 0 <= k < |prefix| :: prefix[k] == props[k];
  }

  /**
   * The fields are named by the properties, exactly; a field is required
   * iff its name is in `required`; and every queued schema is definable.
   */
  lemma {:induction false} PropertyFieldsSound(build: FieldBuilder, props: seq<(string, SchemaOrRef)>, required: set<string>,
                                               frozen: bool, len: nat)
    requires BuildsFields(build)
    requires PropertyFields(build, props, required, frozen, len).Ok?
    ensures var r := PropertyFields(build, props, required, frozen, len).value;
            r.fields.Keys == PropertyNames(props)
            && (forall k | k in r.fields :: r.fields[k].required == (k in required))
            && (forall q | q in r.pushed :: CanDefineType(q))
    decreases |props|
  {
    if props != [] {
      var prefix := props[..|props| - 1];
      PropertyFieldsSound(build, prefix, required, frozen, len);
      PropertyNamesSnoc(props);
    }
  }

  /** A panic on a prefix of the properties is the panic of the whole. */
  lemma {:induction false} PropertyFieldsErrSticks(build: FieldBuilder, props: seq<(string, SchemaOrRef)>, n: nat,
                                                   required: set<string>, frozen: bool, len: nat)
    requires n <= |props|
    requires PropertyFields(build, props[..n], required, frozen, len).Err?
    ensures PropertyFields(build, props, required, frozen, len) == PropertyFields(build, props[..n], required, frozen, len)
    decreases |props| - n
  {
    if n < |props| {
      var next := props[..n + 1];
      assert next[..|next| - 1] == props[..n];
      PropertyFieldsErrSticks(build, props, n + 1, required, frozen, len);
    } else {
      assert props[..n] == props;
    }
  }

  datatype UnionAcc = UnionAcc(names: set<string>, pushed: seq<Schema>)

  /**
   * One `anyOf`/`oneOf` member: its reference name, else its scalar name,
   * else the inline name; the member's schema is queued in every case,
   * because the inline insertion is the eager argument of `unwrap_or`.
   */
  function MemberName(spec: Spec, pascal: string -> string, m: SchemaOrRef, inlineName: string)
    : (r: Result<(string, Schema), Panic>)
    ensures r.Ok? && m.Ref? ==> r.value.0 == pascal(LastSegment(m.refPath))
    ensures r.Ok? && m.Inline? ==> r.value == (if PrimitiveOf(m.schema).Some? then PrimitiveOf(m.schema).value else inlineName, m.schema)
    ensures m.Inline? ==> r.Ok?
  {
    match Resolve(spec, m)
    case Err(e) => Err(e)
    case Ok(resolved) =>
      var named := if m.Ref? then Some(pascal(LastSegment(m.refPath))) else PrimitiveOf(resolved);
      Ok((if named.Some? then named.value else inlineName, resolved))
  }

  /** The member names of a union and the schemas queued for them, one per member. */
  function UnionMembers(spec: Spec, pascal: string -> string, members: seq<SchemaOrRef>, frozen: bool, len: nat)
    : (r: Result<UnionAcc, Panic>)
    ensures r.Ok? ==> |r.value.pushed| == |members|
    decreases |members|
  {
    if members == [] then Ok(UnionAcc({}, []))
    else
      var prefix := members[..|members| - 1];
      var m := members[|members| - 1];
      match UnionMembers(spec, pascal, prefix, frozen, len)
      case Err(e) => Err(e)
      case Ok(acc) =>
        match MemberName(spec, pascal, m, NextInline(frozen, len, acc.pushed))
        case Err(e) => Err(e)
        case Ok((name, q)) =>
          assert forall k | 0 <= k < |prefix| :: prefix[k] == members[k];
          Ok(UnionAcc(acc.names + {name}, acc.pushed + [q]))
  }

  /** Every referenced member is among the union's types, under its Pascal-cased name. */
  lemma {:induction false} UnionMembersNamesRefs(spec: Spec, pascal: string -> string, members: seq<SchemaOrRef>,
                                                 frozen: bool, len: nat)
    requires UnionMembers(spec, pascal, members, frozen, len).Ok?
    ensures forall k | 0 <= k < |members| && members[k].Ref? ::
              pascal(LastSegment(members[k].refPath)) in UnionMembers(spec, pascal, members, frozen, len).value.names
    decreases |members|
  {
    forall k | 0 <= k < |members| && members[k].Ref?
      ensures pascal(LastSegment(members[k].refPath)) in UnionMembers(spec, pascal, members, frozen, len).value.names
    {
      UnionMemberRefNamed(spec, pascal, members, frozen, len, k);
    }
  }

  lemma {:induction false} UnionMemberRefNamed(spec: Spec, pascal: string -> string, members: seq<SchemaOrRef>,
                                               frozen: bool, len: nat, k: nat)
    requires UnionMembers(spec, pascal, members, frozen, len).Ok?
    requires k < |members| && members[k].Ref?
    ensures pascal(LastSegment(members[k].refPath)) in UnionMembers(spec, pascal, members, frozen, len).value.names
    decreases |members|
  {
    var i := |members| - 1;
    if k < i {
      var prefix := members[..i];
      UnionNamesGrow(spec, pascal, members, frozen, len);
      assert prefix[k] == members[k];
      UnionMemberRefNamed(spec, pascal, prefix, frozen, len, k);
    } else {
      assert members[k] == members[|members| - 1];
      UnionLastRefNamed(spec, pascal, members, frozen, len);
    }
  }

  /** The last member's name joins the names of the members before it. */
  lemma UnionMembersLast(spec: Spec, pascal: string -> string, members: seq<SchemaOrRef>, frozen: bool, len: nat)
    requires members != [] && UnionMembers(spec, pascal, members, frozen, len).Ok?
    ensures var acc := UnionMembers(spec, pascal, members[..|members| - 1], frozen, len);
            acc.Ok?
            && var m := MemberName(spec, pascal, members[|members| - 1], NextInline(frozen, len, acc.value.pushed));
               m.Ok? && UnionMembers(spec, pascal, members, frozen, len).value.names == acc.value.names + {m.value.0}
  {
  }

  lemma UnionNamesGrow(spec: Spec, pascal: string -> string, members: seq<SchemaOrRef>, frozen: bool, len: nat)
    requires members != [] && UnionMembers(spec, pascal, members, frozen, len).Ok?
    ensures var prefix := UnionMembers(spec, pascal, members[..|members| - 1], frozen, len);
            prefix.Ok? && prefix.value.names <= UnionMembers(spec, pascal, members, frozen, len).value.names
  {
    UnionMembersLast(spec, pascal, members, frozen, len);
  }

  lemma UnionLastRefNamed(spec: Spec, pascal: string -> string, members: seq<SchemaOrRef>, frozen: bool, len: nat)
    requires members != [] && UnionMembers(spec, pascal, members, frozen, len).Ok?
    requires members[|members| - 1].Ref?
    ensures pascal(LastSegment(members[|members| - 1].refPath)) in UnionMembers(spec, pascal, members, frozen, len).value.names
  {
    UnionMembersLast(spec, pascal, members, frozen, len);
  }

  lemma {:induction false} UnionMembersErrSticks(spec: Spec, pascal: string -> string, members: seq<SchemaOrRef>,
                                                 n: nat, frozen: bool, len: nat)
    requires n <= |members|
    requires UnionMembers(spec, pascal, members[..n], frozen, len).Err?
    ensures UnionMembers(spec, pascal, members, frozen, len) == UnionMembers(spec, pascal, members[..n], frozen, len)
    decreases |members| - n
  {
    if n < |members| {
      var next := members[..n + 1];
      assert next[..|next| - 1] == members[..n];
      UnionMembersErrSticks(spec, pascal, members, n + 1, frozen, len);
    } else {
      assert members[..n] == members;
    }
  }

  /** The variants of a string enum; any other value is the `unreachable!` panic. */
  function EnumVariants(values: seq<EnumValue>): (r: Result<set<string>, Panic>)
    ensures r.Ok? <==> forall k | 0 <= k < |values| :: values[k].StringValue?
    ensures r.Ok? ==> r.value == set k | 0 <= k < |values| :: values[k].s
    ensures r.Err? ==> r.error == NonStringEnumValue
  {
    if forall k | 0 <= k < |values| :: values[k].StringValue? then
      Ok(set k | 0 <= k < |values| :: values[k].s)
    else Err(NonStringEnumValue)
  }

  /**
   * What `define_type` produces for `s` when the inline queue holds `len`
   * schemas and is frozen or not, with the schemas it queues.
   */
  function DefineTypeOf(spec: Spec, pascal: string -> string, s: Schema, frozen: bool, len: nat)
    : (r: Result<(Option<ConfigType>, seq<Schema>), Panic>)
    ensures r.Ok? ==> (r.value.0.Some? <==> CanDefineType(s))
    ensures r.Ok? && |s.properties| > 0 ==>
              r.value.0.value.TypeDef? && r.value.0.value.t.fields.Keys == PropertyNames(s.properties)
              && r.value.0.value.t.doc == s.description
              && forall k | k in r.value.0.value.t.fields :: r.value.0.value.t.fields[k].required == (k in s.required)
    ensures r.Ok? && |s.properties| == 0 && |s.allOf| > 0 ==>
              var all := AllOfProperties(spec, s, |spec.schemas|);
              all.Ok? && r.value.0.value.TypeDef?
              && r.value.0.value.t.fields.Keys == PropertyNames(all.value.properties)
              && forall k | k in r.value.0.value.t.fields :: r.value.0.value.t.fields[k].required == (k in all.value.required)
    ensures r.Ok? && |s.properties| == 0 && |s.allOf| == 0 && |s.anyOf| + |s.oneOf| > 0 ==>
              r.value.0.value.UnionDef? && |r.value.1| == |s.anyOf| + |s.oneOf|
    ensures r.Ok? && !CanDefineType(s) ==> r.value.1 == []
  {
    if |s.properties| > 0 then
      match PropertyFields(FieldAt(spec, pascal, true), s.properties, SeqToSet(s.required), frozen, len)
      case Err(e) => Err(e)
      case Ok(acc) =>
        PropertyFieldsSound(FieldAt(spec, pascal, true), s.properties, SeqToSet(s.required), frozen, len);
        Ok((Some(TypeDef(Type(acc.fields, false, None, s.description))), acc.pushed))
    else if |s.allOf| > 0 then
      match AllOfProperties(spec, s, |spec.schemas|)
      case Err(e) => Err(e)
      case Ok(all) =>
        match PropertyFields(FieldAt(spec, pascal, false), all.properties, all.required, frozen, len)
        case Err(e) => Err(e)
        case Ok(acc) =>
          PropertyFieldsSound(FieldAt(spec, pascal, false), all.properties, all.required, frozen, len);
          Ok((Some(TypeDef(Type(acc.fields, false, None, s.description))), acc.pushed))
    else if |s.anyOf| > 0 || |s.oneOf| > 0 then
      match UnionMembers(spec, pascal, s.anyOf + s.oneOf, frozen, len)
      case Err(e) => Err(e)
      case Ok(acc) => Ok((Some(UnionDef(Union(acc.names, s.description))), acc.pushed))
    else if |s.enumValues| > 0 then
      match EnumVariants(s.enumValues)
      case Err(e) => Err(e)
      case Ok(variants) => Ok((Some(EnumDef(Enum(variants, s.description))), []))
    else Ok((None, []))
  }

  /** The schemas `get_schema_type` queues can always be defined; the union branch queues any member. */
  lemma PropertyQueueDefinable(spec: Spec, pascal: string -> string, s: Schema, frozen: bool, len: nat)
    requires |s.properties| > 0 || |s.allOf| > 0
    requires DefineTypeOf(spec, pascal, s, frozen, len).Ok?
    ensures forall q | q in DefineTypeOf(spec, pascal, s, frozen, len).value.1 :: CanDefineType(q)
  {
    if |s.properties| > 0 {
      PropertyFieldsSound(FieldAt(spec, pascal, true), s.properties, SeqToSet(s.required), frozen, len);
    } else {
      var all := AllOfProperties(spec, s, |spec.schemas|).value;
      PropertyFieldsSound(FieldAt(spec, pascal, false), all.properties, all.required, frozen, len);
    }
  }

  // ----- path templating -----

  /** A character of the regular-expression class `\w`, restricted to ASCII. */
  predicate WordChar(c: char)
  {
    'a' <= c <= 'z' || 'A' <= c <= 'Z' || '0' <= c <= '9' || c == '_'
  }

  predicate AllWord(s: string)
  {
    forall k | 0 <= k < |s| :: WordChar(s[k])
  }

  /** The end of the run of word characters starting at `i`. */
  function WordRunEnd(s: string, i: nat): (r: nat)
    requires i <= |s|
    ensures i <= r <= |s| && AllWord(s[i..r])
    ensures r == |s| || !WordChar(s[r])
    decreases |s| - i
  {
    if i < |s| && WordChar(s[i]) then
      var r := WordRunEnd(s, i + 1);
      assert s[i..r] == [s[i]] + s[i + 1..r];
      r
    else i
  }

  lemma {:induction false} WordRunEndAt(s: string, i: nat, k: nat)
    requires i <= k < |s| && AllWord(s[i..k]) && !WordChar(s[k])
    ensures WordRunEnd(s, i) == k
    decreases k - i
  {
    if i < k {
      assert s[i..k][0] == s[i];
      assert s[i + 1..k] == s[i..k][1..];
      WordRunEndAt(s, i + 1, k);
    }
  }

  /** The index of the `}` closing a `{\w+}` match that starts at 0, if one does. */
  function TemplateEnd(s: string): (r: Option<nat>)
    requires |s| > 0
    ensures r.Some? ==> 1 < r.value < |s| && s[0] == '{' && s[r.value] == '}' && AllWord(s[1..r.value])
  {
    if s[0] == '{' then
      var j := WordRunEnd(s, 1);
      if j > 1 && j < |s| && s[j] == '}' then Some(j) else None
    else None
  }

  /** `{{args.<key>}}`. */
  function ArgPlaceholder(key: string): string
  {
    "{{args." + key + "}}"
  }

  /**
   * The path with every `{name}` replaced by `{{args.name}}`, scanning
   * left to right for non-overlapping matches, and the names replaced.
   */
  function Rewrite(s: string): (r: (string, set<string>))
    ensures forall p | p in r.1 :: |p| > 0 && AllWord(p)
    ensures '{' !in s ==> r == (s, {})
    decreases |s|
  {
    if |s| == 0 then ("", {})
    else
      match TemplateEnd(s)
      case Some(j) =>
        var rest := Rewrite(s[j + 1..]);
        (ArgPlaceholder(s[1..j]) + rest.0, {s[1..j]} + rest.1)
      case None =>
        var rest := Rewrite(s[1..]);
        assert '{' !in s ==> '{' !in s[1..];
        assert '{' !in s ==> [s[0]] + s[1..] == s;
        ([s[0]] + rest.0, rest.1)
  }

  /** Text not starting with `{` is copied one character at a time. */
  lemma RewriteSkip(c: char, t: string, x: string, names: set<string>)
    requires c != '{' && Rewrite(t) == (x, names)
    ensures Rewrite([c] + t) == ([c] + x, names)
  {
    assert ([c] + t)[1..] == t;
  }

  /** A leading `{name}` becomes `{{args.name}}`. */
  lemma RewriteLeading(name: string, b: string)
    requires |name| > 0 && AllWord(name)
    ensures Rewrite("{" + name + "}" + b) == (ArgPlaceholder(name) + Rewrite(b).0, {name} + Rewrite(b).1)
  {
    var s := "{" + name + "}" + b;
    assert s[1..|name| + 1] == name;
    assert s[|name| + 1] == '}';
    WordRunEndAt(s, 1, |name| + 1);
    assert TemplateEnd(s) == Some(|name| + 1);
    assert s[|name| + 2..] == b;
  }

  /** Splitting off the first character of `a` in `a + t`. */
  lemma ConsAppend(a: string, t: string)
    requires |a| > 0
    ensures a + t == [a[0]] + (a[1..] + t)
  {
    assert a == [a[0]] + a[1..];
  }

  /** One brace-free character in front of text whose rewrite is known. */
  lemma RewritePrefixStep(a: string, t: string, x: string, names: set<string>)
    requires |a| > 0 && a[0] != '{' && Rewrite(a[1..] + t) == (a[1..] + x, names)
    ensures Rewrite(a + t) == (a + x, names)
  {
    RewriteSkip(a[0], a[1..] + t, a[1..] + x, names);
    ConsAppend(a, t);
    ConsAppend(a, x);
  }

  /** Brace-free text in front of `t` is copied unchanged. */
  lemma {:induction false} RewritePrefix(a: string, t: string)
    requires '{' !in a
    ensures Rewrite(a + t) == (a + Rewrite(t).0, Rewrite(t).1)
    decreases |a|
  {
    if a == [] {
      assert a + t == t;
      assert a + Rewrite(t).0 == Rewrite(t).0;
    } else {
      RewritePrefix(a[1..], t);
      RewritePrefixStep(a, t, Rewrite(t).0, Rewrite(t).1);
    }
  }

  /** A `{name}` segment after brace-free text becomes `{{args.name}}` and `name` a URL parameter. */
  lemma RewriteSegment(a: string, name: string, b: string)
    requires '{' !in a && |name| > 0 && AllWord(name)
    ensures Rewrite(a + ("{" + name + "}" + b))
            == (a + (ArgPlaceholder(name) + Rewrite(b).0), {name} + Rewrite(b).1)
  {
    RewritePrefix(a, "{" + name + "}" + b);
    RewriteLeading(name, b);
  }

  /**
   * The query pairs of the arguments that are not URL parameters, in
   * argument order. `argNames` are the keys of the operation's argument
   * `BTreeMap`, so they arrive sorted and without repeats; the pairs are
   * the same for any sequence of names.
   */
  function QueryParams(argNames: seq<string>, urlParams: set<string>): (r: seq<KeyValue>)
    ensures forall kv | kv in r :: kv.key in argNames && kv.key !in urlParams && kv.value == ArgPlaceholder(kv.key)
    ensures forall k | k in argNames && k !in urlParams :: KeyValue(k, ArgPlaceholder(k)) in r
  {
    if argNames == [] then []
    else
      var rest := QueryParams(argNames[1..], urlParams);
      if argNames[0] in urlParams then rest else [KeyValue(argNames[0], ArgPlaceholder(argNames[0]))] + rest
  }

  /**
   * The HTTP path and query of an operation with arguments `argNames`
   * (in argument order), and the URL parameters: without arguments the
   * path stays as written.
   */
  function PathAndQuery(path: string, argNames: seq<string>): (r: (string, seq<KeyValue>, set<string>))
    ensures |argNames| == 0 ==> r == (path, [], {})
    ensures |argNames| > 0 ==> (r.0, r.2) == Rewrite(path)
    ensures forall kv | kv in r.1 :: kv.key !in r.2
    ensures forall k | k in argNames :: k in r.2 || KeyValue(k, ArgPlaceholder(k)) in r.1
  {
    if |argNames| == 0 then (path, [], {})
    else
      var (p, params) := Rewrite(path);
      (p, QueryParams(argNames, params), params)
  }

  // ----- define_types -----

  /** The types, unions and enums defined so far. */
  datatype Defs = Defs(types: map<string, Type>, unions: map<string, Union>, enums: map<string, Enum>)

  /** Stores a definition under `name` in the map of its kind. */
  function Install(d: Defs, name: string, def: ConfigType): Defs
  {
    match def
    case TypeDef(t) => d.(types := d.types[name := t])
    case UnionDef(u) => d.(unions := d.unions[name := u])
    case EnumDef(e) => d.(enums := d.enums[name := e])
  }

  /** `def` is stored under `name`. */
  predicate Installed(d: Defs, name: string, def: ConfigType)
  {
    match def
    case TypeDef(t) => name in d.types && d.types[name] == t
    case UnionDef(u) => name in d.unions && d.unions[name] == u
    case EnumDef(e) => name in d.enums && d.enums[name] == e
  }

  lemma InstallKeeps(d: Defs, name: string, def: ConfigType, other: string, otherDef: ConfigType)
    requires Installed(d, other, otherDef) && other != name
    ensures Installed(Install(d, name, def), other, otherDef)
  {
  }

  lemma InlineNameInjective(m: nat, n: nat)
    requires InlineName(m) == InlineName(n)
    ensures m == n
  {
    NatToStringInjective("Type", m, n);
  }

  datatype DefineAcc = DefineAcc(defs: Defs, index: nat, pushed: seq<Schema>)

  /**
   * What `define_type` yields for a schema when the inline queue holds a
   * given number of schemas: a definition or none, and the schemas it queued.
   */
  type Definer = (Schema, nat) -> Result<(Option<ConfigType>, seq<Schema>), Panic>

  /** `define_type` of the converter, frozen or not. */
  function DefineTypeAt(spec: Spec, pascal: string -> string, frozen: bool): (r: Definer)
    ensures forall s, n :: r(s, n) == DefineTypeOf(spec, pascal, s, frozen, n)
  {
    (s: Schema, n: nat) => DefineTypeOf(spec, pascal, s, frozen, n)
  }

  /**
   * `define_types` as written: the `index`-th schema of the queue that
   * defines something is stored as `Type<index>`; a schema that defines
   * nothing is skipped without advancing the counter.
   */
  function DefineAllAsWritten(define: Definer, queue: seq<Schema>, frozen: bool, len: nat, start: Defs)
    : (r: Result<DefineAcc, Panic>)
    ensures r.Ok? ==> r.value.index <= |queue|
    decreases |queue|
  {
    if queue == [] then Ok(DefineAcc(start, 0, []))
    else
      match DefineAllAsWritten(define, queue[..|queue| - 1], frozen, len, start)
      case Err(e) => Err(e)
      case Ok(acc) =>
        match define(queue[|queue| - 1], QueueLen(frozen, len, acc.pushed))
        case Err(e) => Err(e)
        case Ok((None, q)) => Ok(acc.(pushed := acc.pushed + q))
        case Ok((Some(def), q)) => Ok(DefineAcc(Install(acc.defs, InlineName(acc.index), def), acc.index + 1, acc.pushed + q))
  }

  /**
   * `define_types` with the counter advanced for every queued schema, so
   * that the schema queued at position `k` is stored as `Type<k>`, the
   * name `insert_inline_type` handed out for it.
   */
  function DefineAllByPosition(define: Definer, queue: seq<Schema>, frozen: bool, len: nat, start: Defs)
    : (r: Result<DefineAcc, Panic>)
    ensures r.Ok? ==> r.value.index == |queue|
    decreases |queue|
  {
    if queue == [] then Ok(DefineAcc(start, 0, []))
    else
      match DefineAllByPosition(define, queue[..|queue| - 1], frozen, len, start)
      case Err(e) => Err(e)
      case Ok(acc) =>
        match define(queue[|queue| - 1], QueueLen(frozen, len, acc.pushed))
        case Err(e) => Err(e)
        case Ok((None, q)) => Ok(DefineAcc(acc.defs, acc.index + 1, acc.pushed + q))
        case Ok((Some(def), q)) => Ok(DefineAcc(Install(acc.defs, InlineName(acc.index), def), acc.index + 1, acc.pushed + q))
  }

  /** `s` defines a type, union or enum when the queue holds `len` schemas. */
  predicate Defines(define: Definer, s: Schema, len: nat)
  {
    define(s, len).Ok? && define(s, len).value.0.Some?
  }

  /** How many of `queue` define something. */
  function CountDefined(define: Definer, queue: seq<Schema>, len: nat): nat
    decreases |queue|
  {
    if queue == [] then 0
    else CountDefined(define, queue[..|queue| - 1], len) + (if Defines(define, queue[|queue| - 1], len) then 1 else 0)
  }

  /** As written, the counter is the number of schemas that defined something. */
  lemma {:induction false} AsWrittenIndex(define: Definer, queue: seq<Schema>, len: nat, start: Defs)
    requires DefineAllAsWritten(define, queue, true, len, start).Ok?
    ensures DefineAllAsWritten(define, queue, true, len, start).value.index == CountDefined(define, queue, len)
    decreases |queue|
  {
    if queue != [] {
      AsWrittenIndex(define, queue[..|queue| - 1], len, start);
    }
  }

  /** A schema that defines something counts before every later position. */
  lemma {:induction false} CountDefinedMono(define: Definer, queue: seq<Schema>, len: nat, k: nat)
    requires k < |queue| && Defines(define, queue[k], len)
    ensures CountDefined(define, queue[..k], len) < CountDefined(define, queue, len)
    decreases |queue|
  {
    var n := |queue|;
    if k == n - 1 {
      assert queue[..n - 1] == queue[..k];
    } else {
      var prefix := queue[..n - 1];
      assert prefix[k] == queue[k] && prefix[..k] == queue[..k];
      CountDefinedMono(define, prefix, len, k);
    }
  }

  /** A definition stored under `Type<m>` survives storing another under `Type<n>`, `n != m`. */
  lemma InstallOtherIndex(d: Defs, n: nat, def: ConfigType, m: nat, otherDef: ConfigType)
    requires Installed(d, InlineName(m), otherDef) && n != m
    ensures Installed(Install(d, InlineName(n), def), InlineName(m), otherDef)
  {
    if InlineName(n) == InlineName(m) {
      InlineNameInjective(n, m);
    }
    InstallKeeps(d, InlineName(n), def, InlineName(m), otherDef);
  }

  /**
   * As written, the `k`-th queued schema, when it defines something, is
   * stored under `Type<c>` where `c` counts the schemas before it that
   * defined something.
   */
  lemma {:induction false} AsWrittenInstalls(define: Definer, queue: seq<Schema>, len: nat, start: Defs, k: nat)
    requires DefineAllAsWritten(define, queue, true, len, start).Ok?
    requires k < |queue|
    ensures define(queue[k], len).Ok?
    ensures define(queue[k], len).value.0.Some? ==>
              Installed(DefineAllAsWritten(define, queue, true, len, start).value.defs,
                        InlineName(CountDefined(define, queue[..k], len)), define(queue[k], len).value.0.value)
    decreases |queue|
  {
    var n := |queue|;
    var prefix := queue[..n - 1];
    var acc := DefineAllAsWritten(define, prefix, true, len, start).value;
    AsWrittenIndex(define, prefix, len, start);
    if k == n - 1 {
      assert queue[..k] == prefix;
    } else {
      assert prefix[k] == queue[k] && prefix[..k] == queue[..k];
      AsWrittenInstalls(define, prefix, len, start, k);
      var d := define(queue[k], len).value.0;
      var last := define(queue[n - 1], len).value.0;
      if d.Some? && last.Some? {
        CountDefinedMono(define, prefix, len, k);
        InstallOtherIndex(acc.defs, acc.index, last.value, CountDefined(define, queue[..k], len), d.value);
      }
    }
  }

  /** By position, the `k`-th queued schema, when it defines something, is stored under `Type<k>`. */
  lemma {:induction false} ByPositionInstalls(define: Definer, queue: seq<Schema>, len: nat, start: Defs, k: nat)
    requires DefineAllByPosition(define, queue, true, len, start).Ok?
    requires k < |queue|
    ensures define(queue[k], len).Ok?
    ensures define(queue[k], len).value.0.Some? ==>
              Installed(DefineAllByPosition(define, queue, true, len, start).value.defs, InlineName(k), define(queue[k], len).value.0.value)
    decreases |queue|
  {
    var n := |queue|;
    var prefix := queue[..n - 1];
    var acc := DefineAllByPosition(define, prefix, true, len, start).value;
    if k < n - 1 {
      assert prefix[k] == queue[k];
      ByPositionInstalls(define, prefix, len, start, k);
      var d := define(queue[k], len).value.0;
      var last := define(queue[n - 1], len).value.0;
      if d.Some? && last.Some? {
        InstallOtherIndex(acc.defs, n - 1, last.value, k, d.value);
      }
    }
  }

  /** When every queued schema defines something, numbering by position is what the source does. */
  lemma {:induction false} ByPositionAgrees(define: Definer, queue: seq<Schema>, len: nat, start: Defs)
    requires forall k | 0 <= k < |queue| :: define(queue[k], len).Ok? ==> define(queue[k], len).value.0.Some?
    ensures DefineAllByPosition(define, queue, true, len, start) == DefineAllAsWritten(define, queue, true, len, start)
    decreases |queue|
  {
    if queue != [] {
      var prefix := queue[..|queue| - 1];
      assert forall k | 0 <= k < |prefix| :: prefix[k] == queue[k];
      ByPositionAgrees(define, prefix, len, start);
      assert queue[|queue| - 1] == queue[|queue| - 1];
    }
  }

  /**
   * The component schemas in order, each stored under its Pascal-cased
   * name when it defines something, and the inline schemas queued on the way.
   */
  function DefineComponentsOf(define: Definer, spec: Spec, pascal: string -> string, comps: seq<(string, SchemaOrRef)>,
                              frozen: bool, len: nat, start: Defs): (r: Result<(Defs, seq<Schema>), Panic>)
    decreases |comps|
  {
    if comps == [] then Ok((start, []))
    else
      match DefineComponentsOf(define, spec, pascal, comps[..|comps| - 1], frozen, len, start)
      case Err(e) => Err(e)
      case Ok((defs, pushed)) =>
        var c := comps[|comps| - 1];
        match Resolve(spec, c.1)
        case Err(e) => Err(e)
        case Ok(s) =>
          match define(s, QueueLen(frozen, len, pushed))
          case Err(e) => Err(e)
          case Ok((None, q)) => Ok((defs, pushed + q))
          case Ok((Some(def), q)) => Ok((Install(defs, pascal(c.0), def), pushed + q))
  }

  /**
   * A component that defines something is stored under its Pascal-cased
   * name, unless a later component has the same Pascal-cased name.
   */
  lemma {:induction false} ComponentInstalled(define: Definer, spec: Spec, pascal: string -> string,
                                              comps: seq<(string, SchemaOrRef)>, len: nat, start: Defs, k: nat)
    requires DefineComponentsOf(define, spec, pascal, comps, true, len, start).Ok?
    requires k < |comps|
    requires forall j | k < j < |comps| :: pascal(comps[j].0) != pascal(comps[k].0)
    ensures Resolve(spec, comps[k].1).Ok? && define(Resolve(spec, comps[k].1).value, len).Ok?
    ensures var d := define(Resolve(spec, comps[k].1).value, len).value.0;
            d.Some? ==> Installed(DefineComponentsOf(define, spec, pascal, comps, true, len, start).value.0,
                                  pascal(comps[k].0), d.value)
    decreases |comps|
  {
    var n := |comps|;
    var prefix := comps[..n - 1];
    if k < n - 1 {
      assert prefix[k] == comps[k];
      assert forall j | k < j < |prefix| :: prefix[j] == comps[j];
      ComponentInstalled(define, spec, pascal, prefix, len, start, k);
      var defs := DefineComponentsOf(define, spec, pascal, prefix, true, len, start).value.0;
      var d := define(Resolve(spec, comps[k].1).value, len).value.0;
      var last := define(Resolve(spec, comps[n - 1].1).value, len).value.0;
      if d.Some? && last.Some? {
        InstallKeeps(defs, pascal(comps[n - 1].0), last.value, pascal(comps[k].0), d.value);
      }
    }
  }

  /** A built field extends the fold over the properties before it. */
  lemma PropertyFieldsSnoc(build: FieldBuilder, props: seq<(string, SchemaOrRef)>, i: nat, required: set<string>,
                           frozen: bool, len: nat, acc: FieldsAcc, f: Field, q: Option<Schema>)
    requires i < |props| && PropertyFields(build, props[..i], required, frozen, len) == Ok(acc)
    requires build(props[i], props[i].0 in required, NextInline(frozen, len, acc.pushed)) == Ok((f, q))
    ensures PropertyFields(build, props[..i + 1], required, frozen, len)
            == Ok(FieldsAcc(acc.fields[props[i].0 := f], acc.pushed + Optional(q)))
  {
    assert props[..i + 1][..i] == props[..i];
  }

  /** A field that cannot be built is a panic of the fold. */
  lemma PropertyFieldsSnocErr(build: FieldBuilder, props: seq<(string, SchemaOrRef)>, i: nat, required: set<string>,
                              frozen: bool, len: nat, acc: FieldsAcc)
    requires i < |props| && PropertyFields(build, props[..i], required, frozen, len) == Ok(acc)
    requires build(props[i], props[i].0 in required, NextInline(frozen, len, acc.pushed)).Err?
    ensures PropertyFields(build, props[..i + 1], required, frozen, len).Err?
  {
    assert props[..i + 1][..i] == props[..i];
  }

  /** One more member extends the fold over the members before it. */
  lemma UnionMembersStep(spec: Spec, pascal: string -> string, members: seq<SchemaOrRef>, i: nat, frozen: bool, len: nat)
    requires i < |members|
    ensures var acc := UnionMembers(spec, pascal, members[..i], frozen, len);
            var m := if acc.Ok? then MemberName(spec, pascal, members[i], NextInline(frozen, len, acc.value.pushed))
                     else Err(ListOfList);
            acc.Ok? && m.Ok? ==>
              UnionMembers(spec, pascal, members[..i + 1], frozen, len)
              == Ok(UnionAcc(acc.value.names + {m.value.0}, acc.value.pushed + [m.value.1]))
  {
    assert members[..i + 1][..i] == members[..i];
  }

  /** One more schema extends numbering by position over the schemas before it. */
  lemma ByPositionSnoc(define: Definer, queue: seq<Schema>, i: nat, frozen: bool, len: nat, start: Defs, acc: DefineAcc)
    requires i < |queue| && DefineAllByPosition(define, queue[..i], frozen, len, start) == Ok(acc)
    ensures var d := define(queue[i], QueueLen(frozen, len, acc.pushed));
            var next := DefineAllByPosition(define, queue[..i + 1], frozen, len, start);
            (d.Err? ==> next.Err?)
            && (d.Ok? && d.value.0.None? ==> next == Ok(DefineAcc(acc.defs, acc.index + 1, acc.pushed + d.value.1)))
            && (d.Ok? && d.value.0.Some? ==>
                  next == Ok(DefineAcc(Install(acc.defs, InlineName(acc.index), d.value.0.value), acc.index + 1, acc.pushed + d.value.1)))
  {
    assert queue[..i + 1][..i] == queue[..i];
  }

  /** A panic while numbering a prefix is the panic of the whole queue. */
  lemma {:induction false} ByPositionErrSticks(define: Definer, queue: seq<Schema>, n: nat, frozen: bool, len: nat, start: Defs)
    requires n <= |queue|
    requires DefineAllByPosition(define, queue[..n], frozen, len, start).Err?
    ensures DefineAllByPosition(define, queue, frozen, len, start).Err?
    decreases |queue| - n
  {
    if n < |queue| {
      assert queue[..n + 1][..n] == queue[..n];
      ByPositionErrSticks(define, queue, n + 1, frozen, len, start);
    } else {
      assert queue[..n] == queue;
    }
  }

  /** One more component extends the fold over the components before it. */
  lemma ComponentsSnoc(define: Definer, spec: Spec, pascal: string -> string, comps: seq<(string, SchemaOrRef)>, i: nat,
                       frozen: bool, len: nat, start: Defs, defs: Defs, pushed: seq<Schema>)
    requires i < |comps| && DefineComponentsOf(define, spec, pascal, comps[..i], frozen, len, start) == Ok((defs, pushed))
    ensures var res := Resolve(spec, comps[i].1);
            var d := if res.Ok? then define(res.value, QueueLen(frozen, len, pushed)) else Err(res.error);
            var next := DefineComponentsOf(define, spec, pascal, comps[..i + 1], frozen, len, start);
            (d.Err? ==> next.Err?)
            && (d.Ok? && d.value.0.None? ==> next == Ok((defs, pushed + d.value.1)))
            && (d.Ok? && d.value.0.Some? ==> next == Ok((Install(defs, pascal(comps[i].0), d.value.0.value), pushed + d.value.1)))
  {
    assert comps[..i + 1][..i] == comps[..i];
  }

  lemma {:induction false} ComponentsErrSticks(define: Definer, spec: Spec, pascal: string -> string,
                                               comps: seq<(string, SchemaOrRef)>, n: nat, frozen: bool, len: nat, start: Defs)
    requires n <= |comps|
    requires DefineComponentsOf(define, spec, pascal, comps[..n], frozen, len, start).Err?
    ensures DefineComponentsOf(define, spec, pascal, comps, frozen, len, start).Err?
    decreases |comps| - n
  {
    if n < |comps| {
      assert comps[..n + 1][..n] == comps[..n];
      ComponentsErrSticks(define, spec, pascal, comps, n + 1, frozen, len, start);
    } else {
      assert comps[..n] == comps;
    }
  }

  // ----- the numbering of inline types, on one document -----

  /** `{type: string}`. */
  const StringSchema: Schema := Schema(Some(String), None, [], false, [], [], [], [], [], None)

  /** `{type: object, properties: {a: {type: string}}}`. */
  const ObjectSchema: Schema := Schema(Some(Object), None, [], false, [("a", Inline(StringSchema))], [], [], [], [], None)

  /** `{oneOf: [{type: string}, {type: object, properties: {a: {type: string}}}]}`. */
  const UnionSchema: Schema := Schema(None, None, [], false, [], [], [], [], [Inline(StringSchema), Inline(ObjectSchema)], None)

  lemma InlineNamesSmall()
    ensures InlineName(0) == "Type0" && InlineName(1) == "Type1"
  {
  }

  /** The union names its members `String` and `Type1`, and queues both. */
  lemma UnionSchemaQueuesBoth(spec: Spec, pascal: string -> string)
    ensures DefineTypeOf(spec, pascal, UnionSchema, false, 0)
            == Ok((Some(UnionDef(Union({"String", "Type1"}, None))), [StringSchema, ObjectSchema]))
  {
    ExampleUnionMembers(spec, pascal);
  }

  lemma ExampleMemberNames(spec: Spec, pascal: string -> string)
    ensures MemberName(spec, pascal, Inline(StringSchema), InlineName(0)) == Ok(("String", StringSchema))
    ensures MemberName(spec, pascal, Inline(ObjectSchema), InlineName(1)) == Ok(("Type1", ObjectSchema))
  {
    InlineNamesSmall();
    assert PrimitiveOf(StringSchema) == Some("String") && PrimitiveOf(ObjectSchema) == None;
  }

  lemma ExampleUnionMembers(spec: Spec, pascal: string -> string)
    ensures UnionMembers(spec, pascal, UnionSchema.anyOf + UnionSchema.oneOf, false, 0)
            == Ok(UnionAcc({"String", "Type1"}, [StringSchema, ObjectSchema]))
  {
    var members := UnionSchema.anyOf + UnionSchema.oneOf;
    assert members == [Inline(StringSchema), Inline(ObjectSchema)];
    ExampleFirstMember(spec, pascal, members);
    ExampleMemberNames(spec, pascal);
    UnionMembersStep(spec, pascal, members, 1, false, 0);
    assert NextInline(false, 0, [StringSchema]) == InlineName(1);
    assert {"String"} + {"Type1"} == {"String", "Type1"};
    assert [StringSchema] + [ObjectSchema] == [StringSchema, ObjectSchema];
    assert members[..2] == members;
  }

  lemma ExampleFirstMember(spec: Spec, pascal: string -> string, members: seq<SchemaOrRef>)
    requires members == [Inline(StringSchema), Inline(ObjectSchema)]
    ensures UnionMembers(spec, pascal, members[..1], false, 0) == Ok(UnionAcc({"String"}, [StringSchema]))
  {
    ExampleMemberNames(spec, pascal);
    assert members[..0] == [];
    assert UnionMembers(spec, pascal, members[..0], false, 0) == Ok(UnionAcc({}, []));
    UnionMembersStep(spec, pascal, members, 0, false, 0);
    var none: seq<Schema> := [];
    assert {} + {"String"} == {"String"} && none + [StringSchema] == [StringSchema];
  }

  /** `{type: string}` defines nothing. */
  lemma StringSchemaDefinesNothing(spec: Spec, pascal: string -> string, len: nat)
    ensures DefineTypeOf(spec, pascal, StringSchema, true, len) == Ok((None, []))
  {
  }

  /** The one field of the object schema. */
  const FieldA: Field := Field("String", false, false, map[], None, None, None)

  /** The object schema defines a type with one field `a: String`. */
  lemma ObjectSchemaDefinesType(spec: Spec, pascal: string -> string, len: nat)
    ensures DefineTypeOf(spec, pascal, ObjectSchema, true, len) == Ok((Some(TypeDef(Type(map["a" := FieldA], false, None, None))), []))
  {
    var props := ObjectSchema.properties;
    var build := FieldAt(spec, pascal, true);
    assert props[..0] == [] && props[..1] == props;
    assert SeqToSet(ObjectSchema.required) == {};
    assert SchemaTypeOf(spec, pascal, StringSchema, None, InlineName(len)) == Ok((Name("String"), None));
    assert PropertyField(spec, pascal, props[0], false, true, InlineName(len)) == Ok((FieldA, None));
    assert build(props[0], false, NextInline(true, len, [])) == Ok((FieldA, None));
    assert PropertyFields(build, props[..0], {}, true, len) == Ok(FieldsAcc(map[], []));
    PropertyFieldsSnoc(build, props, 0, {}, true, len, FieldsAcc(map[], []), FieldA, None);
    var none: seq<Schema> := [];
    assert map[]["a" := FieldA] == map["a" := FieldA] && none + Optional(None) == none;
    assert PropertyFields(build, props, SeqToSet(ObjectSchema.required), true, len) == Ok(FieldsAcc(map["a" := FieldA], []));
  }

  /** The object member's type. */
  const ObjectType: Type := Type(map["a" := FieldA], false, None, None)

  /** The union `U` as the component loop stores it. */
  const UnionU: Union := Union({"String", "Type1"}, None)

  /** The component `U` is stored as a union of `String` and `Type1`, and queues both members. */
  lemma UnionComponentQueuesBoth(spec: Spec, pascal: string -> string)
    requires pascal("U") == "U"
    ensures DefineComponentsOf(DefineTypeAt(spec, pascal, false), spec, pascal, [("U", Inline(UnionSchema))],
                               false, 0, Defs(map[], map[], map[]))
            == Ok((Defs(map[], map["U" := UnionU], map[]), [StringSchema, ObjectSchema]))
  {
    UnionSchemaQueuesBoth(spec, pascal);
    var comps := [("U", Inline(UnionSchema))];
    var define := DefineTypeAt(spec, pascal, false);
    var start := Defs(map[], map[], map[]);
    assert comps[..|comps| - 1] == [] && comps[|comps| - 1] == ("U", Inline(UnionSchema));
    assert DefineComponentsOf(define, spec, pascal, [], false, 0, start) == Ok((start, []));
    assert Resolve(spec, Inline(UnionSchema)) == Ok(UnionSchema);
    assert define(UnionSchema, QueueLen(false, 0, [])) == Ok((Some(UnionDef(UnionU)), [StringSchema, ObjectSchema]));
    var none: seq<Schema> := [];
    assert none + [StringSchema, ObjectSchema] == [StringSchema, ObjectSchema];
    assert map[]["U" := UnionU] == map["U" := UnionU];
  }

  /**
   * As written, the object member queued second is stored as `Type0`,
   * because the string member before it defined nothing.
   */
  lemma AsWrittenStoresType0(spec: Spec, pascal: string -> string, start: Defs)
    ensures DefineAllAsWritten(DefineTypeAt(spec, pascal, true), [StringSchema, ObjectSchema], true, 0, start)
            == Ok(DefineAcc(start.(types := start.types["Type0" := ObjectType]), 1, []))
  {
    InlineNamesSmall();
    StringSchemaDefinesNothing(spec, pascal, 0);
    ObjectSchemaDefinesType(spec, pascal, 0);
    var define := DefineTypeAt(spec, pascal, true);
    var queue := [StringSchema, ObjectSchema];
    var one := queue[..1];
    assert one[..|one| - 1] == [] && one[|one| - 1] == StringSchema;
    assert queue[..|queue| - 1] == one && queue[|queue| - 1] == ObjectSchema;
    var none: seq<Schema> := [];
    assert none + none == none;
    assert DefineAllAsWritten(define, [], true, 0, start) == Ok(DefineAcc(start, 0, []));
    assert define(StringSchema, 0) == Ok((None, []));
    assert DefineAllAsWritten(define, one, true, 0, start) == Ok(DefineAcc(start, 0, []));
    assert define(ObjectSchema, 0) == Ok((Some(TypeDef(ObjectType)), []));
  }

  /** Numbered by position, the object member queued second is stored as `Type1`. */
  lemma ByPositionStoresType1(spec: Spec, pascal: string -> string, start: Defs)
    ensures DefineAllByPosition(DefineTypeAt(spec, pascal, true), [StringSchema, ObjectSchema], true, 0, start)
            == Ok(DefineAcc(start.(types := start.types["Type1" := ObjectType]), 2, []))
  {
    InlineNamesSmall();
    StringSchemaDefinesNothing(spec, pascal, 0);
    ObjectSchemaDefinesType(spec, pascal, 0);
    var define := DefineTypeAt(spec, pascal, true);
    var queue := [StringSchema, ObjectSchema];
    var one := queue[..1];
    assert one[..|one| - 1] == [] && one[|one| - 1] == StringSchema;
    assert queue[..|queue| - 1] == one && queue[|queue| - 1] == ObjectSchema;
    var none: seq<Schema> := [];
    assert none + none == none;
    assert DefineAllByPosition(define, [], true, 0, start) == Ok(DefineAcc(start, 0, []));
    assert define(StringSchema, 0) == Ok((None, []));
    assert DefineAllByPosition(define, one, true, 0, start) == Ok(DefineAcc(start, 1, []));
    assert define(ObjectSchema, 0) == Ok((Some(TypeDef(ObjectType)), []));
  }

  /**
   * The component `U: {oneOf: [{type: string}, {type: object, ...}]}`:
   * as written, the union refers to `Type1` but its object member is
   * stored as `Type0` and nothing is stored as `Type1`; numbered by
   * position, the object member is stored as `Type1`.
   */
  lemma DanglingInlineName(spec: Spec, pascal: string -> string)
    requires pascal("U") == "U"
    ensures var comps := DefineComponentsOf(DefineTypeAt(spec, pascal, false), spec, pascal, [("U", Inline(UnionSchema))],
                                            false, 0, Defs(map[], map[], map[]));
            comps.Ok? && comps.value.1 == [StringSchema, ObjectSchema]
            && "U" in comps.value.0.unions && "Type1" in comps.value.0.unions["U"].types
            && var asWritten := DefineAllAsWritten(DefineTypeAt(spec, pascal, true), comps.value.1, true, 0, comps.value.0);
               var byPosition := DefineAllByPosition(DefineTypeAt(spec, pascal, true), comps.value.1, true, 0, comps.value.0);
               asWritten.Ok? && "Type0" in asWritten.value.defs.types
               && "Type1" !in asWritten.value.defs.types && "Type1" !in asWritten.value.defs.unions
               && "Type1" !in asWritten.value.defs.enums
               && byPosition.Ok? && "Type1" in byPosition.value.defs.types && "Type0" !in byPosition.value.defs.types
  {
    UnionComponentQueuesBoth(spec, pascal);
    var defs := Defs(map[], map["U" := UnionU], map[]);
    AsWrittenStoresType0(spec, pascal, defs);
    ByPositionStoresType1(spec, pascal, defs);
  }

  // ----- the converter -----

  /** The main inline queue, the queue used while frozen, and the frozen flag. */
  datatype Queues = Queues(frozen: bool, main: seq<Schema>, other: seq<Schema>)

  /**
   * From `before` to `after`, the schemas `q` were appended to the queue
   * insertions go to (the other queue while frozen), and nothing else changed.
   */
  predicate Appended(before: Queues, after: Queues, q: seq<Schema>)
  {
    after.frozen == before.frozen
    && if before.frozen then after.main == before.main && after.other == before.other + q
       else after.main == before.main + q && after.other == before.other
  }

  lemma AppendedNothing(a: Queues)
    ensures Appended(a, a, [])
  {
    assert a.main + [] == a.main && a.other + [] == a.other;
  }

  lemma AppendedTrans(a: Queues, b: Queues, c: Queues, p: seq<Schema>, q: seq<Schema>)
    requires Appended(a, b, p) && Appended(b, c, q)
    ensures Appended(a, c, p + q)
  {
    assert a.main + p + q == a.main + (p + q) && a.other + p + q == a.other + (p + q);
  }

  /** After appending `q`, the main queue holds as many schemas as the fold counts. */
  lemma AppendedLength(a: Queues, b: Queues, q: seq<Schema>)
    requires Appended(a, b, q)
    ensures |b.main| == QueueLen(a.frozen, |a.main|, q)
  {
  }

  /**
   * `OpenApiToConfigConverter`: the document, the inline queue with its
   * frozen flag and the queue used while frozen, and the definitions so far.
   * `pascal` is the Pascal-casing of names.
   */
  class Converter {
    const spec: Spec
    const pascal: string -> string
    var inlineTypes: seq<Schema>
    var inlineTypesFrozen: bool
    var inlineTypesOther: seq<Schema>
    var types: map<string, Type>
    var unions: map<string, Union>
    var enums: map<string, Enum>

    constructor (spec: Spec, pascal: string -> string)
      ensures this.spec == spec && this.pascal == pascal
      ensures inlineTypes == [] && !inlineTypesFrozen && inlineTypesOther == []
      ensures types == map[] && unions == map[] && enums == map[]
    {
      this.spec := spec;
      this.pascal := pascal;
      inlineTypes := [];
      inlineTypesFrozen := false;
      inlineTypesOther := [];
      types := map[];
      unions := map[];
      enums := map[];
    }

    function Definitions(): Defs
      reads this
    {
      Defs(types, unions, enums)
    }

    function QueueState(): Queues
      reads this
    {
      Queues(inlineTypesFrozen, inlineTypes, inlineTypesOther)
    }

    /** `insert_inline_type`: the name is taken from the main queue's length before the insertion. */
    method InsertInlineType(s: Schema) returns (name: string)
      modifies this
      ensures name == InlineName(|old(inlineTypes)|)
      ensures Appended(old(QueueState()), QueueState(), [s])
      ensures Definitions() == old(Definitions())
    {
      name := InlineName(|inlineTypes|);
      if inlineTypesFrozen {
        inlineTypesOther := inlineTypesOther + [s];
      } else {
        inlineTypes := inlineTypes + [s];
      }
    }

    /** `get_schema_type`; a panic is an `Err`, and leaves the queues as they were. */
    method GetSchemaType(s: Schema, name: Option<string>) returns (r: Result<TypeName, Panic>)
      modifies this
      ensures var d := SchemaTypeOf(spec, pascal, s, name, InlineName(|old(inlineTypes)|));
              (r.Ok? <==> d.Ok?)
              && (d.Ok? ==> r.value == d.value.0
                            && Appended(old(QueueState()), QueueState(), Optional(d.value.1)))
              && (d.Err? ==> Appended(old(QueueState()), QueueState(), []))
      ensures Definitions() == old(Definitions())
      decreases s
    {
      if s.items.Some? {
        var element := s.items.value;
        var inner := Resolve(spec, element);
        if inner.Err? {
          AppendedNothing(QueueState());
          return Err(inner.error);
        }
        if IsStringEnum(inner.value) {
          var n := InsertInlineType(inner.value);
          return Ok(ListOf(Name(n)));
        }
        if element.Ref? {
          AppendedNothing(QueueState());
          return Ok(ListOf(Name(pascal(LastSegment(element.refPath)))));
        }
        var primitive := PrimitiveOf(element.schema);
        if primitive.Some? {
          AppendedNothing(QueueState());
          return Ok(ListOf(Name(primitive.value)));
        }
        var t := GetSchemaType(element.schema, None);
        if t.Err? {
          return Err(t.error);
        }
        return Ok(ListOf(t.value));
      }
      AppendedNothing(QueueState());
      if IsStringEnum(s) {
        var n := InsertInlineType(s);
        r := Ok(Name(n));
      } else if PrimitiveOf(s).Some? {
        r := Ok(Name(PrimitiveOf(s).value));
      } else if s.additionalProperties {
        r := Ok(Name("JSON"));
      } else if name.Some? {
        r := Ok(Name(name.value));
      } else if CanDefineType(s) {
        var n := InsertInlineType(s);
        r := Ok(Name(n));
      } else {
        r := Ok(Name("JSON"));
      }
    }

    /** One property as a field, as `define_type` builds it. */
    method BuildField(p: (string, SchemaOrRef), required: bool, withDoc: bool) returns (r: Result<Field, Panic>)
      modifies this
      ensures var d := FieldAt(spec, pascal, withDoc)(p, required, InlineName(|old(inlineTypes)|));
              (r.Ok? <==> d.Ok?)
              && (d.Ok? ==> r.value == d.value.0
                            && Appended(old(QueueState()), QueueState(), Optional(d.value.1)))
      ensures Definitions() == old(Definitions())
    {
      var ps := Resolve(spec, p.1);
      if ps.Err? {
        return Err(ps.error);
      }
      var tn := GetSchemaType(ps.value, NameFromRefPath(pascal, p.1));
      if tn.Err? {
        return Err(tn.error);
      }
      var tuple := IntoTuple(tn.value);
      if tuple.None? {
        return Err(ListOfList);
      }
      r := Ok(Field(tuple.value.1, tuple.value.0, required, map[], if withDoc then ps.value.description else None, None, None));
    }

    /** The loop body of `BuildFields`: property `i` after the properties before it. */
    method PropertyFieldsNext(props: seq<(string, SchemaOrRef)>, i: nat, required: set<string>, withDoc: bool,
                              ghost start: Queues,
                              fields: map<string, Field>, ghost pushed: seq<Schema>)
      returns (r: Result<map<string, Field>, Panic>, ghost pushed': seq<Schema>)
      requires i < |props|
      requires PropertyFields(FieldAt(spec, pascal, withDoc), props[..i], required, start.frozen, |start.main|) == Ok(FieldsAcc(fields, pushed))
      requires Appended(start, QueueState(), pushed)
      modifies this
      ensures r.Ok? ==> PropertyFields(FieldAt(spec, pascal, withDoc), props[..i + 1], required, start.frozen, |start.main|)
                        == Ok(FieldsAcc(r.value, pushed'))
                        && Appended(start, QueueState(), pushed')
      ensures r.Err? ==> PropertyFields(FieldAt(spec, pascal, withDoc), props[..i + 1], required, start.frozen, |start.main|).Err?
      ensures Definitions() == old(Definitions())
    {
      AppendedLength(start, QueueState(), pushed);
      ghost var mid := QueueState();
      ghost var build := FieldAt(spec, pascal, withDoc);
      ghost var d := build(props[i], props[i].0 in required, NextInline(start.frozen, |start.main|, pushed));
      var field := BuildField(props[i], props[i].0 in required, withDoc);
      if field.Err? {
        PropertyFieldsSnocErr(build, props, i, required, start.frozen, |start.main|, FieldsAcc(fields, pushed));
        return Err(field.error), pushed;
      }
      PropertyFieldsSnoc(build, props, i, required, start.frozen, |start.main|, FieldsAcc(fields, pushed), field.value, d.value.1);
      r, pushed' := Ok(fields[props[i].0 := field.value]), pushed + Optional(d.value.1);
      AppendedTrans(start, mid, QueueState(), pushed, Optional(d.value.1));
    }

    /**
     * The fields of `props` as `define_type` builds them, with the
     * required names `required` and the property descriptions when `withDoc`.
     */
    method BuildFields(props: seq<(string, SchemaOrRef)>, required: set<string>, withDoc: bool)
      returns (r: Result<map<string, Field>, Panic>)
      modifies this
      ensures var d := PropertyFields(FieldAt(spec, pascal, withDoc), props, required, old(inlineTypesFrozen), |old(inlineTypes)|);
              (r.Ok? <==> d.Ok?)
              && (d.Ok? ==> r.value == d.value.fields
                            && Appended(old(QueueState()), QueueState(), d.value.pushed))
      ensures Definitions() == old(Definitions())
    {
      ghost var start := QueueState();
      var fields: map<string, Field> := map[];
      ghost var pushed: seq<Schema> := [];
      var i := 0;
      AppendedNothing(QueueState());
      while i < |props|
        invariant 0 <= i <= |props|
        invariant PropertyFields(FieldAt(spec, pascal, withDoc), props[..i], required, start.frozen, |start.main|) == Ok(FieldsAcc(fields, pushed))
        invariant Appended(start, QueueState(), pushed)
        invariant Definitions() == old(Definitions())
      {
        var next;
        next, pushed := PropertyFieldsNext(props, i, required, withDoc, start, fields, pushed);
        if next.Err? {
          PropertyFieldsErrSticks(FieldAt(spec, pascal, withDoc), props, i + 1, required, start.frozen, |start.main|);
          return next;
        }
        fields := next.value;
        i := i + 1;
      }
      assert props[..i] == props;
      return Ok(fields);
    }

    /** One member of a union, as `define_type` names it; the member is queued in every case. */
    method UnionMemberName(m: SchemaOrRef) returns (r: Result<string, Panic>)
      modifies this
      ensures var d := MemberName(spec, pascal, m, InlineName(|old(inlineTypes)|));
              (r.Ok? <==> d.Ok?)
              && (d.Ok? ==> r.value == d.value.0
                            && Appended(old(QueueState()), QueueState(), [d.value.1]))
      ensures Definitions() == old(Definitions())
    {
      var resolved := Resolve(spec, m);
      if resolved.Err? {
        return Err(resolved.error);
      }
      var named := if m.Ref? then Some(pascal(LastSegment(m.refPath))) else PrimitiveOf(resolved.value);
      var inlineName := InsertInlineType(resolved.value);
      r := Ok(if named.Some? then named.value else inlineName);
    }

    /** The loop body of `BuildUnionMembers`: member `i` after the members before it. */
    method UnionMembersNext(members: seq<SchemaOrRef>, i: nat, ghost start: Queues, names: set<string>,
                            ghost pushed: seq<Schema>)
      returns (r: Result<set<string>, Panic>, ghost pushed': seq<Schema>)
      requires i < |members|
      requires UnionMembers(spec, pascal, members[..i], start.frozen, |start.main|) == Ok(UnionAcc(names, pushed))
      requires Appended(start, QueueState(), pushed)
      modifies this
      ensures r.Ok? ==> UnionMembers(spec, pascal, members[..i + 1], start.frozen, |start.main|) == Ok(UnionAcc(r.value, pushed'))
                        && Appended(start, QueueState(), pushed')
      ensures r.Err? ==> UnionMembers(spec, pascal, members[..i + 1], start.frozen, |start.main|).Err?
      ensures Definitions() == old(Definitions())
    {
      AppendedLength(start, QueueState(), pushed);
      ghost var mid := QueueState();
      ghost var d := MemberName(spec, pascal, members[i], NextInline(start.frozen, |start.main|, pushed));
      UnionMembersStep(spec, pascal, members, i, start.frozen, |start.main|);
      var name := UnionMemberName(members[i]);
      if name.Err? {
        return Err(name.error), pushed;
      }
      r, pushed' := Ok(names + {name.value}), pushed + [d.value.1];
      AppendedTrans(start, mid, QueueState(), pushed, [d.value.1]);
    }

    /** The member names of a union as `define_type` builds them; every member is also queued. */
    method BuildUnionMembers(members: seq<SchemaOrRef>) returns (r: Result<set<string>, Panic>)
      modifies this
      ensures var d := UnionMembers(spec, pascal, members, old(inlineTypesFrozen), |old(inlineTypes)|);
              (r.Ok? <==> d.Ok?)
              && (d.Ok? ==> r.value == d.value.names
                            && Appended(old(QueueState()), QueueState(), d.value.pushed))
      ensures Definitions() == old(Definitions())
    {
      ghost var start := QueueState();
      var names: set<string> := {};
      ghost var pushed: seq<Schema> := [];
      var i := 0;
      AppendedNothing(QueueState());
      while i < |members|
        invariant 0 <= i <= |members|
        invariant UnionMembers(spec, pascal, members[..i], start.frozen, |start.main|) == Ok(UnionAcc(names, pushed))
        invariant Appended(start, QueueState(), pushed)
        invariant Definitions() == old(Definitions())
      {
        var next;
        next, pushed := UnionMembersNext(members, i, start, names, pushed);
        if next.Err? {
          UnionMembersErrSticks(spec, pascal, members, i + 1, start.frozen, |start.main|);
          return next;
        }
        names := next.value;
        i := i + 1;
      }
      assert members[..i] == members;
      return Ok(names);
    }

    /** `define_type`; a panic is an `Err`. */
    method DefineType(s: Schema) returns (r: Result<Option<ConfigType>, Panic>)
      modifies this
      ensures var d := DefineTypeOf(spec, pascal, s, old(inlineTypesFrozen), |old(inlineTypes)|);
              (r.Ok? <==> d.Ok?)
              && (d.Ok? ==> r.value == d.value.0 && Appended(old(QueueState()), QueueState(), d.value.1))
      ensures Definitions() == old(Definitions())
    {
      if |s.properties| > 0 {
        var fields := BuildFields(s.properties, SeqToSet(s.required), true);
        if fields.Err? {
          return Err(fields.error);
        }
        return Ok(Some(TypeDef(Type(fields.value, false, None, s.description))));
      }
      if |s.allOf| > 0 {
        var all := AllOfProperties(spec, s, |spec.schemas|);
        if all.Err? {
          return Err(all.error);
        }
        var fields := BuildFields(all.value.properties, all.value.required, false);
        if fields.Err? {
          return Err(fields.error);
        }
        return Ok(Some(TypeDef(Type(fields.value, false, None, s.description))));
      }
      if |s.anyOf| > 0 || |s.oneOf| > 0 {
        var names := BuildUnionMembers(s.anyOf + s.oneOf);
        if names.Err? {
          return Err(names.error);
        }
        return Ok(Some(UnionDef(Union(names.value, s.description))));
      }
      AppendedNothing(QueueState());
      if |s.enumValues| > 0 {
        var variants := EnumVariants(s.enumValues);
        if variants.Err? {
          return Err(variants.error);
        }
        return Ok(Some(EnumDef(Enum(variants.value, s.description))));
      }
      return Ok(None);
    }

    /** Stores a definition under `name` in the map of its kind. */
    method Store(name: string, def: ConfigType)
      modifies this
      ensures Definitions() == Install(old(Definitions()), name, def)
      ensures QueueState() == old(QueueState())
    {
      match def
      case TypeDef(t) => types := types[name := t];
      case UnionDef(u) => unions := unions[name := u];
      case EnumDef(e) => enums := enums[name := e];
    }

    /**
     * `define_types`, with the counter advanced for every schema taken
     * from `queue`, so that each is stored under the name it was handed
     * when it was queued.
     */
    method DefineTypes(queue: seq<Schema>) returns (panic: Option<Panic>)
      modifies this
      ensures var d := DefineAllByPosition(DefineTypeAt(spec, pascal, old(inlineTypesFrozen)), queue,
                                           old(inlineTypesFrozen), |old(inlineTypes)|, old(Definitions()));
              (panic.None? <==> d.Ok?)
              && (d.Ok? ==> Definitions() == d.value.defs && Appended(old(QueueState()), QueueState(), d.value.pushed))
    {
      ghost var start := QueueState();
      ghost var define := DefineTypeAt(spec, pascal, start.frozen);
      var pending := queue;
      var index := 0;
      ghost var pushed: seq<Schema> := [];
      AppendedNothing(start);
      while pending != []
        invariant 0 <= index <= |queue| && pending == queue[index..]
        invariant DefineAllByPosition(define, queue[..index], start.frozen, |start.main|, old(Definitions()))
                  == Ok(DefineAcc(Definitions(), index, pushed))
        invariant Appended(start, QueueState(), pushed)
        decreases |pending|
      {
        var schema := pending[0];
        pending := pending[1..];
        AppendedLength(start, QueueState(), pushed);
        ByPositionSnoc(define, queue, index, start.frozen, |start.main|, old(Definitions()), DefineAcc(Definitions(), index, pushed));
        ghost var mid := QueueState();
        ghost var d := DefineTypeOf(spec, pascal, schema, start.frozen, |inlineTypes|);
        var def := DefineType(schema);
        if def.Err? {
          ByPositionErrSticks(define, queue, index + 1, start.frozen, |start.main|, old(Definitions()));
          return Some(def.error);
        }
        if def.value.Some? {
          Store(InlineName(index), def.value.value);
        }
        AppendedTrans(start, mid, QueueState(), pushed, d.value.1);
        pushed := pushed + d.value.1;
        index := index + 1;
      }
      assert queue[..index] == queue;
      return None;
    }

    /**
     * `define_inline_types`: takes the queued schemas, defines them with
     * the queue frozen (so schemas they queue go to the other queue and
     * are never defined), then unfreezes.
     */
    method DefineInlineTypes() returns (panic: Option<Panic>)
      modifies this
      ensures var d := DefineAllByPosition(DefineTypeAt(spec, pascal, true), old(inlineTypes), true, 0, old(Definitions()));
              (panic.None? <==> d.Ok?)
              && (d.Ok? ==> Definitions() == d.value.defs && inlineTypes == [] && !inlineTypesFrozen
                            && inlineTypesOther == old(inlineTypesOther) + d.value.pushed)
    {
      var queue := inlineTypes;
      inlineTypes := [];
      inlineTypesFrozen := true;
      panic := DefineTypes(queue);
      inlineTypesFrozen := false;
    }

    /** The component loop of `create_types`: each component schema defined under its Pascal-cased name. */
    method DefineComponents(comps: seq<(string, SchemaOrRef)>) returns (panic: Option<Panic>)
      modifies this
      ensures var d := DefineComponentsOf(DefineTypeAt(spec, pascal, old(inlineTypesFrozen)), spec, pascal, comps,
                                          old(inlineTypesFrozen), |old(inlineTypes)|, old(Definitions()));
              (panic.None? <==> d.Ok?)
              && (d.Ok? ==> Definitions() == d.value.0 && Appended(old(QueueState()), QueueState(), d.value.1))
    {
      ghost var start := QueueState();
      ghost var define := DefineTypeAt(spec, pascal, start.frozen);
      ghost var pushed: seq<Schema> := [];
      AppendedNothing(start);
      for i := 0 to |comps|
        invariant DefineComponentsOf(define, spec, pascal, comps[..i], start.frozen, |start.main|, old(Definitions()))
                  == Ok((Definitions(), pushed))
        invariant Appended(start, QueueState(), pushed)
      {
        AppendedLength(start, QueueState(), pushed);
        ComponentsSnoc(define, spec, pascal, comps, i, start.frozen, |start.main|, old(Definitions()), Definitions(), pushed);
        var schema := Resolve(spec, comps[i].1);
        if schema.Err? {
          ComponentsErrSticks(define, spec, pascal, comps, i + 1, start.frozen, |start.main|, old(Definitions()));
          return Some(schema.error);
        }
        ghost var mid := QueueState();
        ghost var d := DefineTypeOf(spec, pascal, schema.value, start.frozen, |inlineTypes|);
        var def := DefineType(schema.value);
        if def.Err? {
          ComponentsErrSticks(define, spec, pascal, comps, i + 1, start.frozen, |start.main|, old(Definitions()));
          return Some(def.error);
        }
        if def.value.Some? {
          Store(pascal(comps[i].0), def.value.value);
        }
        AppendedTrans(start, mid, QueueState(), pushed, d.value.1);
        pushed := pushed + d.value.1;
      }
      assert comps[..|comps|] == comps;
      return None;
    }
  }
}
