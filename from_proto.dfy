/**
 * Generation of a configuration from protobuf descriptors
 * (src/core/generator/from_proto.rs): the expansion of `oneof` groups into
 * a union of variant types, the primitive-type table, the splitting of
 * fully-qualified references, the `google.protobuf.Empty` conventions, the
 * label rules of a message field and the query fields of a service.
 *
 * The GraphQL naming of the source (`GraphQLType` with its `into_*`
 * conversions) is not part of this model; a `Naming` value supplies it.
 */
module FromProto {
  import opened Wrappers
  import opened Strings
  import opened ConfigModel

  /** A reference split into its package and its last name segment (`GraphQLType<Unparsed>`). */
  datatype ProtoName = ProtoName(package: Option<string>, name: string)

  /** The error `graphql_type_from_ref` reports: a reference that does not start with `.`. */
  datatype RefError = NotFullyQualified(reference: string)

  /** The GraphQL naming conventions, as functions of the names they convert. */
  datatype Naming = Naming(
    objectType: ProtoName -> string,              // `into_object_type().to_string()`
    fieldKey: ProtoName -> string,                // `into_field().to_string()`
    methodField: (seq<string>, string, string) -> string, // `into_method().to_string()`
    methodId: (seq<string>, string, string) -> string)    // `into_method().id()`

  // ----- oneof expansion -----

  type OneofGroup = seq<(string, Field)>

  /** The base type with one field of a oneof group added as a required field. */
  function WithOneofField(base: Type, field: (string, Field)): Type
  {
    base.(fields := base.fields[field.0 := field.1.(required := true)])
  }

  /** The name of the variant that selects field `i` of the first remaining group. */
  function VariantName(typeName: string, i: nat): string
  {
    typeName + "__Var" + NatToString(i)
  }

  /** `typeName` followed by `k` copies of `__Var`. */
  function VarChain(typeName: string, k: nat): string
    decreases k
  {
    if k == 0 then typeName else VarChain(typeName + "__Var", k - 1)
  }

  /** The product over the groups of (group size + 1). */
  function VariantCount(groups: seq<OneofGroup>): (r: nat)
    ensures r >= 1
  {
    if |groups| == 0 then 1
    else
      var rest := VariantCount(groups[1..]);
      assert (|groups[0]| + 1) * rest >= rest;
      (|groups[0]| + 1) * rest
  }

  /**
   * The list `collect_types` appends to its output: for the first group,
   * first the variants without any of its fields (`__Var`), then for each
   * field `i` in order the variants that carry it (`__Var{i}`), each of them
   * expanded over the remaining groups.
   */
  function Variants(typeName: string, base: Type, groups: seq<OneofGroup>): (r: seq<(string, Type)>)
    ensures |r| == VariantCount(groups)
    decreases |groups|, 1, 0
  {
    if |groups| == 0 then [(typeName, base)]
    else
      Variants(typeName + "__Var", base, groups[1..])
      + GroupVariants(typeName, base, groups[0], groups[1..], |groups[0]|)
  }

  /** The variants for the first `n` fields of `group`, in field order. */
  function GroupVariants(typeName: string, base: Type, group: OneofGroup, rest: seq<OneofGroup>, n: nat)
    : (r: seq<(string, Type)>)
    requires n <= |group|
    ensures |r| == n * VariantCount(rest)
    decreases |rest| + 1, 0, n
  {
    if n == 0 then []
    else
      var r := GroupVariants(typeName, base, group, rest, n - 1)
        + Variants(VariantName(typeName, n - 1), WithOneofField(base, group[n - 1]), rest);
      assert |r| == (n - 1) * VariantCount(rest) + VariantCount(rest);
      r
  }

  /** `collect_types`: appends the variants of `groups` to `output`. */
  method CollectTypes(typeName: string, base: Type, groups: seq<OneofGroup>, output: seq<(string, Type)>)
    returns (out: seq<(string, Type)>)
    ensures out == output + Variants(typeName, base, groups)
    decreases |groups|
  {
    if |groups| == 0 {
      out := output + [(typeName, base)];
      return;
    }
    var oneOf := groups[0];
    var rest := groups[1..];
    out := CollectTypes(typeName + "__Var", base, rest, output);
    ghost var head := output + Variants(typeName + "__Var", base, rest);
    for i := 0 to |oneOf|
      invariant out == head + GroupVariants(typeName, base, oneOf, rest, i)
    {
      var newType := WithOneofField(base, oneOf[i]);
      out := CollectTypes(VariantName(typeName, i), newType, rest, out);
      AppendBlock(head, GroupVariants(typeName, base, oneOf, rest, i), Variants(VariantName(typeName, i), newType, rest));
    }
    assert Variants(typeName, base, groups) == Variants(typeName + "__Var", base, rest) + GroupVariants(typeName, base, oneOf, rest, |oneOf|);
  }

  lemma AppendBlock<T>(a: seq<T>, b: seq<T>, c: seq<T>)
    ensures (a + b) + c == a + (b + c)
  {
  }

  /** The first variant carries none of the oneof fields: the base type under one `__Var` per group. */
  lemma {:induction false} VariantsFirst(typeName: string, base: Type, groups: seq<OneofGroup>)
    ensures Variants(typeName, base, groups)[0] == (VarChain(typeName, |groups|), base)
    decreases |groups|
  {
    if |groups| > 0 {
      VariantsFirst(typeName + "__Var", base, groups[1..]);
    }
  }

  /** With no oneof group the only type is the message itself, under its own name. */
  lemma NoGroupsSingleType(typeName: string, base: Type)
    ensures Variants(typeName, base, []) == [(typeName, base)]
  {
  }

  lemma MulStep(i: nat, c: nat)
    ensures (i + 1) * c == i * c + c
    ensures i * c >= 0
  {
  }

  lemma MulMono(a: nat, b: nat, c: nat)
    requires a <= b
    ensures a * c <= b * c
  {
  }

  /** The variants of fewer fields are a prefix of the variants of more fields. */
  lemma {:induction false} GroupVariantsPrefix(typeName: string, base: Type, group: OneofGroup,
                                                rest: seq<OneofGroup>, m: nat, n: nat)
    requires m <= n <= |group|
    ensures GroupVariants(typeName, base, group, rest, m) <= GroupVariants(typeName, base, group, rest, n)
    decreases n
  {
    if m < n {
      GroupVariantsPrefix(typeName, base, group, rest, m, n - 1);
    }
  }

  /** Field `i` of `group` owns the `i`-th block of `GroupVariants`. */
  lemma GroupVariantsBlock(typeName: string, base: Type, group: OneofGroup,
                           rest: seq<OneofGroup>, n: nat, i: nat)
    requires i < n <= |group|
    ensures var c := VariantCount(rest);
            var lo := i * c;
            var r := GroupVariants(typeName, base, group, rest, n);
            0 <= lo && lo + c <= |r|
            && r[lo..lo + c] == Variants(VariantName(typeName, i), WithOneofField(base, group[i]), rest)
  {
    var gi := GroupVariants(typeName, base, group, rest, i);
    var gi1 := GroupVariants(typeName, base, group, rest, i + 1);
    var gn := GroupVariants(typeName, base, group, rest, n);
    var v := Variants(VariantName(typeName, i), WithOneofField(base, group[i]), rest);
    MulStep(i, VariantCount(rest));
    GroupVariantsPrefix(typeName, base, group, rest, i + 1, n);
    assert gi1 == gi + v;
    assert gn[|gi|..|gi1|] == gi1[|gi|..];
  }

  /**
   * The layout of the expansion: first the variants without the first
   * group (`__Var`), then one block per field of that group, in field order,
   * each made of the variants of the base type with that field added as a
   * required field.
   */
  lemma VariantLayout(typeName: string, base: Type, groups: seq<OneofGroup>, i: nat)
    requires |groups| > 0 && i < |groups[0]|
    ensures var c := VariantCount(groups[1..]);
            var lo := (i + 1) * c;
            var r := Variants(typeName, base, groups);
            c <= lo && lo + c <= |r|
            && r[..c] == Variants(typeName + "__Var", base, groups[1..])
            && r[lo..lo + c] == Variants(VariantName(typeName, i), WithOneofField(base, groups[0][i]), groups[1..])
  {
    var rest := groups[1..];
    var c := VariantCount(rest);
    var head := Variants(typeName + "__Var", base, rest);
    var blocks := GroupVariants(typeName, base, groups[0], rest, |groups[0]|);
    var v := Variants(VariantName(typeName, i), WithOneofField(base, groups[0][i]), rest);
    assert Variants(typeName, base, groups) == head + blocks;
    GroupVariantsBlock(typeName, base, groups[0], rest, |groups[0]|, i);
    MulStep(i, c);
    AppendSlices(head, blocks, i * c, v);
  }

  /** In `a + b`, the prefix of length `|a|` is `a` and a slice of `b` sits `|a|` further on. */
  lemma AppendSlices<T>(a: seq<T>, b: seq<T>, lo: nat, v: seq<T>)
    requires lo + |v| <= |b| && b[lo..lo + |v|] == v
    ensures (a + b)[..|a|] == a
    ensures (a + b)[|a| + lo..|a| + lo + |v|] == v
  {
    assert (a + b)[..|a|] == a;
  }

  /** The oneof fields of `groups`, each marked required. */
  function OneofEntries(groups: seq<OneofGroup>): set<(string, Field)>
  {
    if |groups| == 0 then {}
    else (set j | 0 <= j < |groups[0]| :: (groups[0][j].0, groups[0][j].1.(required := true)))
         + OneofEntries(groups[1..])
  }

  /**
   * `t` is `base` with some oneof fields added: same flags, tag and doc,
   * every field of `base` present, and every field either the base's own or
   * a required oneof field.
   */
  ghost predicate ExtendsBase(base: Type, groups: seq<OneofGroup>, t: Type)
  {
    t.interface == base.interface && t.tag == base.tag && t.doc == base.doc
    && base.fields.Keys <= t.fields.Keys
    && forall k | k in t.fields ::
         (k in base.fields && t.fields[k] == base.fields[k]) || (k, t.fields[k]) in OneofEntries(groups)
  }

  lemma ExtendsBaseWiden(base: Type, group: OneofGroup, rest: seq<OneofGroup>, t: Type)
    requires ExtendsBase(base, rest, t)
    ensures ExtendsBase(base, [group] + rest, t)
  {
    assert ([group] + rest)[1..] == rest;
  }

  lemma ExtendsBaseStep(base: Type, group: OneofGroup, j: nat, rest: seq<OneofGroup>, t: Type)
    requires j < |group|
    requires ExtendsBase(WithOneofField(base, group[j]), rest, t)
    ensures ExtendsBase(base, [group] + rest, t)
  {
    var groups := [group] + rest;
    assert groups[0] == group && groups[1..] == rest;
    var added := (group[j].0, group[j].1.(required := true));
    assert added in OneofEntries(groups);
  }

  /** Every variant is the base type plus required oneof fields. */
  lemma {:induction false} VariantsExtendBase(typeName: string, base: Type, groups: seq<OneofGroup>)
    ensures forall v | v in Variants(typeName, base, groups) :: ExtendsBase(base, groups, v.1)
    decreases |groups|, 1, 0
  {
    if |groups| > 0 {
      var rest := groups[1..];
      assert groups == [groups[0]] + rest;
      VariantsExtendBase(typeName + "__Var", base, rest);
      forall v | v in Variants(typeName + "__Var", base, rest) ensures ExtendsBase(base, groups, v.1) {
        ExtendsBaseWiden(base, groups[0], rest, v.1);
      }
      GroupVariantsExtendBase(typeName, base, groups[0], rest, |groups[0]|);
    }
  }

  lemma {:induction false} GroupVariantsExtendBase(typeName: string, base: Type, group: OneofGroup,
                                                     rest: seq<OneofGroup>, n: nat)
    requires n <= |group|
    ensures forall v | v in GroupVariants(typeName, base, group, rest, n) :: ExtendsBase(base, [group] + rest, v.1)
    decreases |rest| + 1, 0, n
  {
    if n > 0 {
      GroupVariantsExtendBase(typeName, base, group, rest, n - 1);
      var b := WithOneofField(base, group[n - 1]);
      VariantsExtendBase(VariantName(typeName, n - 1), b, rest);
      forall v | v in Variants(VariantName(typeName, n - 1), b, rest) ensures ExtendsBase(base, [group] + rest, v.1) {
        ExtendsBaseStep(base, group, n - 1, rest, v.1);
      }
    }
  }

  /** The names of a list of generated types. */
  function Names(ps: seq<(string, Type)>): set<string>
  {
    set p | p in ps :: p.0
  }

  /** Inserting the pairs one after the other into a map. */
  function InsertAll(m: map<string, Type>, ps: seq<(string, Type)>): (r: map<string, Type>)
    ensures r.Keys == m.Keys + Names(ps)
  {
    if |ps| == 0 then m
    else
      var r := InsertAll(m, ps[..|ps| - 1])[ps[|ps| - 1].0 := ps[|ps| - 1].1];
      assert ps == ps[..|ps| - 1] + [ps[|ps| - 1]];
      r
  }

  lemma NamesSnoc(ps: seq<(string, Type)>, p: (string, Type))
    ensures Names(ps + [p]) == Names(ps) + {p.0}
  {
  }

  lemma InsertAllSnoc(m: map<string, Type>, ps: seq<(string, Type)>, p: (string, Type))
    ensures InsertAll(m, ps + [p]) == InsertAll(m, ps)[p.0 := p.1]
  {
    assert (ps + [p])[..|ps|] == ps;
  }

  /** Inserting one more variant of `ps` extends both the type map and the names by it. */
  lemma InsertPrefixStep(m: map<string, Type>, ps: seq<(string, Type)>, i: nat)
    requires i < |ps|
    ensures InsertAll(m, ps[..i + 1]) == InsertAll(m, ps[..i])[ps[i].0 := ps[i].1]
    ensures Names(ps[..i + 1]) == Names(ps[..i]) + {ps[i].0}
  {
    assert ps[..i + 1] == ps[..i] + [ps[i]];
    InsertAllSnoc(m, ps[..i], ps[i]);
    NamesSnoc(ps[..i], ps[i]);
  }

  // ----- primitive types, references and the Empty conventions -----

  /** The table of `convert_primitive_type`, applied to the stripped name. */
  function PrimitiveName(t: string): (r: string)
    ensures r == t || r == "Float" || r == "Int" || r == "Boolean" || r == "String" || r == "JSON"
  {
    if t == "double" || t == "float" then "Float"
    else if t == "int32" || t == "int64" || t == "fixed32" || t == "fixed64" || t == "uint32" || t == "uint64" then "Int"
    else if t == "bool" then "Boolean"
    else if t == "string" || t == "bytes" then "String"
    else if t == "message" then "JSON"
    else t
  }

  /**
   * `convert_primitive_type`: the lower-cased name without its `type_`
   * prefix when it has one, otherwise the name exactly as given, mapped
   * through the table.
   */
  function ConvertPrimitiveType(protoTy: string): (r: string)
    ensures StartsWith(ToLower(protoTy), "type_") ==> r == PrimitiveName(ToLower(protoTy)[5..])
    ensures !StartsWith(ToLower(protoTy), "type_") ==> r == PrimitiveName(protoTy)
  {
    var lower := ToLower(protoTy);
    var t := if StartsWith(lower, "type_") then lower[5..] else protoTy;
    PrimitiveName(t)
  }

  /** The prefix test ignores case: a name with a `type_` prefix converts like its lower-case form. */
  lemma ConvertIgnoresCase(protoTy: string)
    requires StartsWith(ToLower(protoTy), "type_")
    ensures ConvertPrimitiveType(protoTy) == ConvertPrimitiveType(ToLower(protoTy))
  {
    ToLowerIdempotent(protoTy);
  }

  /** A `TYPE_` prefix is stripped and the rest is lower-cased before the table is consulted. */
  lemma ConvertTypePrefixed(u: string)
    ensures ConvertPrimitiveType("TYPE_" + u) == PrimitiveName(ToLower(u))
  {
    LowerTypePrefix(u);
  }

  /**
   * The table on the kind names of protobuf's `FieldDescriptorProto.Type`
   * as `as_str_name` spells them (`TYPE_DOUBLE`, …), whatever the case of
   * the part after the prefix.
   */
  lemma ConvertProstKinds(u: string)
    ensures ToLower(u) == "double" || ToLower(u) == "float" ==> ConvertPrimitiveType("TYPE_" + u) == "Float"
    ensures ToLower(u) == "int32" || ToLower(u) == "int64" || ToLower(u) == "fixed32"
            || ToLower(u) == "fixed64" || ToLower(u) == "uint32" || ToLower(u) == "uint64"
            ==> ConvertPrimitiveType("TYPE_" + u) == "Int"
    ensures ToLower(u) == "bool" ==> ConvertPrimitiveType("TYPE_" + u) == "Boolean"
    ensures ToLower(u) == "string" || ToLower(u) == "bytes" ==> ConvertPrimitiveType("TYPE_" + u) == "String"
    ensures ToLower(u) == "message" ==> ConvertPrimitiveType("TYPE_" + u) == "JSON"
    ensures ToLower(u) == "sint32" || ToLower(u) == "sfixed64" || ToLower(u) == "enum"
            ==> ConvertPrimitiveType("TYPE_" + u) == ToLower(u)
  {
    ConvertTypePrefixed(u);
  }

  /**
   * A name without the `type_` prefix is looked up exactly as given: the
   * table only knows lower-case spellings, so such a name is changed only
   * when it is already lower case, and an upper-case kind name such as
   * `DOUBLE` passes through unchanged.
   */
  lemma ConvertUnprefixed(n: string)
    requires !StartsWith(ToLower(n), "type_")
    ensures ConvertPrimitiveType(n) == PrimitiveName(n)
    ensures ConvertPrimitiveType(n) != n ==> ToLower(n) == n
  {
    if PrimitiveName(n) != n {
      TableNamesLower(n);
    }
  }

  /** Every name the table changes is spelled in lower case. */
  lemma TableNamesLower(t: string)
    requires PrimitiveName(t) != t
    ensures ToLower(t) == t
  {
    if t == "double" || t == "float" || t == "int32" || t == "int64" || t == "fixed32" || t == "fixed64" {
      NumericNamesLower(t);
    } else if t == "uint32" || t == "uint64" || t == "bool" {
      ToLowerNoUpper(t);
    } else {
      assert t == "string" || t == "bytes" || t == "message";
      ToLowerNoUpper(t);
    }
  }

  lemma NumericNamesLower(t: string)
    requires t == "double" || t == "float" || t == "int32" || t == "int64" || t == "fixed32" || t == "fixed64"
    ensures ToLower(t) == t
  {
    ToLowerNoUpper(t);
  }

  const EmptyRef: string := ".google.protobuf.Empty"

  /** The fully-qualified reference of a split name. */
  function QualifiedRef(p: ProtoName): string
  {
    "." + (if p.package.Some? then p.package.value + "." else "") + p.name
  }

  /**
   * `graphql_type_from_ref`: a reference must start with `.`; the rest is
   * split at its last `.` into package and name.
   */
  function GraphqlTypeFromRef(reference: string): (r: Result<ProtoName, RefError>)
    ensures r.Err? <==> !StartsWith(reference, ".")
    ensures r.Err? ==> r.error == NotFullyQualified(reference)
    ensures r.Ok? ==> '.' !in r.value.name && QualifiedRef(r.value) == reference
  {
    if !StartsWith(reference, ".") then Err(NotFullyQualified(reference))
    else
      var rest := reference[1..];
      assert reference == "." + rest;
      match RSplitOnce(rest, '.')
      case Some((package, name)) => Ok(ProtoName(Some(package), name))
      case None => Ok(ProtoName(None, rest))
  }

  /** Splitting the reference of a name whose last segment has no `.` gives that name back. */
  lemma RefRoundTrip(p: ProtoName)
    requires '.' !in p.name
    ensures GraphqlTypeFromRef(QualifiedRef(p)) == Ok(p)
  {
    var s := QualifiedRef(p);
    assert s[1..] == (if p.package.Some? then p.package.value + "." else "") + p.name;
    if p.package.Some? {
      RSplitOnceAt(p.package.value, '.', p.name);
      assert s[1..] == p.package.value + ['.'] + p.name;
    }
  }

  /** `get_output_type`: `google.protobuf.Empty` is the `Empty` scalar, anything else a reference. */
  function GetOutputType(outputTy: string): (r: Result<ProtoName, RefError>)
    ensures outputTy == EmptyRef ==> r == Ok(ProtoName(None, "Empty"))
    ensures outputTy != EmptyRef ==> (r.Ok? <==> StartsWith(outputTy, "."))
    ensures outputTy != EmptyRef && r.Ok? ==> QualifiedRef(r.value) == outputTy
  {
    if outputTy == EmptyRef then Ok(ProtoName(None, "Empty")) else GraphqlTypeFromRef(outputTy)
  }

  /** `get_input_type`: an empty or `google.protobuf.Empty` input means no argument. */
  function GetInputType(inputTy: string): (r: Result<Option<ProtoName>, RefError>)
    ensures inputTy == "" || inputTy == EmptyRef ==> r == Ok(None)
    ensures inputTy != "" && inputTy != EmptyRef ==>
              (r.Ok? <==> StartsWith(inputTy, ".")) && (r.Ok? ==> r.value.Some? && QualifiedRef(r.value.value) == inputTy)
  {
    if inputTy == EmptyRef || inputTy == "" then Ok(None)
    else
      match GraphqlTypeFromRef(inputTy)
      case Ok(p) => Ok(Some(p))
      case Err(e) => Err(e)
  }

  // ----- the field of a message -----

  /**
   * The field `append_msg_type` builds for a message field with the given
   * label name (`LABEL_REPEATED`, …), referenced type name (set for message
   * and enum fields) and scalar kind name.
   */
  function MessageField(naming: Naming, labelName: string, typeName: Option<string>, protoType: string)
    : (r: Result<Field, RefError>)
    ensures typeName.None? ==> r.Ok? && r.value.typeOf == ConvertPrimitiveType(protoType)
    ensures typeName.Some? ==> (r.Ok? <==> StartsWith(typeName.value, "."))
    ensures r.Ok? && typeName.None? && ConvertPrimitiveType(protoType) == "JSON" ==>
              !r.value.list && !r.value.required
    ensures r.Ok? && (typeName.Some? || ConvertPrimitiveType(protoType) != "JSON") ==>
              r.value.list == Contains(ToLower(labelName), "repeated")
              && r.value.required == (Contains(ToLower(labelName), "required") || Contains(ToLower(labelName), "repeated"))
  {
    var lower := ToLower(labelName);
    var list := Contains(lower, "repeated");
    var required := Contains(lower, "required") || list;
    var field := DefaultField.(list := list, required := required);
    if typeName.Some? then
      match GraphqlTypeFromRef(typeName.value)
      case Err(e) => Err(e)
      case Ok(p) => Ok(field.(typeOf := naming.objectType(p)))
    else
      var typeOf := ConvertPrimitiveType(protoType);
      if typeOf == "JSON" then Ok(field.(typeOf := typeOf, list := false, required := false))
      else Ok(field.(typeOf := typeOf))
  }

  // ----- the query field of a service method -----

  datatype ProtoMethod = ProtoMethod(name: string, inputType: string, outputType: string)
  datatype ProtoService = ProtoService(name: string, methods: seq<ProtoMethod>)

  /** The body template that forwards the single argument. */
  function ArgsBody(key: string): string
  {
    "{{.args." + key + "}}"
  }

  /**
   * The query field `append_query_service` builds for one method of a
   * service, with the name it is registered under.
   */
  function QueryField(naming: Naming, namespace: seq<string>, service: string, m: ProtoMethod)
    : (r: Result<(string, Field), RefError>)
    ensures r.Ok? <==> (m.inputType == "" || m.inputType == EmptyRef || StartsWith(m.inputType, "."))
                       && (m.outputType == EmptyRef || StartsWith(m.outputType, "."))
    ensures r.Ok? ==> var f := r.value.1;
              f.required && !f.list && f.grpc.Some? && f.grpc.value.grpcMethod == naming.methodId(namespace, service, m.name)
              && r.value.0 == naming.methodField(namespace, service, m.name)
    ensures r.Ok? && (m.inputType == "" || m.inputType == EmptyRef) ==>
              r.value.1.args == map[] && r.value.1.grpc.value.body == None
    ensures r.Ok? && m.inputType != "" && m.inputType != EmptyRef ==>
              exists p :: QualifiedRef(p) == m.inputType
                && r.value.1.args == map[naming.fieldKey(p) := Arg(naming.objectType(p), false, true, None)]
                && r.value.1.grpc.value.body == Some(ArgsBody(naming.fieldKey(p)))
    ensures r.Ok? && m.outputType == EmptyRef ==> r.value.1.typeOf == naming.objectType(ProtoName(None, "Empty"))
  {
    match GetInputType(m.inputType)
    case Err(e) => Err(e)
    case Ok(input) =>
      match GetOutputType(m.outputType)
      case Err(e) => Err(e)
      case Ok(output) =>
        var args := if input.Some? then map[naming.fieldKey(input.value) := Arg(naming.objectType(input.value), false, true, None)]
                    else map[];
        var body := if input.Some? then Some(ArgsBody(naming.fieldKey(input.value))) else None;
        var grpc := Grpc(None, body, [], [], naming.methodId(namespace, service, m.name));
        Ok((naming.methodField(namespace, service, m.name),
            DefaultField.(typeOf := naming.objectType(output), required := true, args := args, grpc := Some(grpc))))
  }

  /**
   * Registers a field on the query type, creating that type (and naming it
   * the schema's query root) the first time.
   */
  function AddQueryField(config: Config, query: string, name: string, field: Field): Config
  {
    var c := if query in config.types then config
             else config.(types := config.types[query := DefaultType], schema := config.schema.(query := Some(query)));
    c.(types := c.types[query := c.types[query].(fields := c.types[query].fields[name := field])])
  }

  /**
   * The query type exists afterwards and holds the field; it becomes the
   * schema's query root only when it is created; nothing else changes.
   */
  lemma AddQueryFieldEffect(config: Config, query: string, name: string, field: Field)
    ensures var r := AddQueryField(config, query, name, field);
            query in r.types && name in r.types[query].fields && r.types[query].fields[name] == field
            && (query in config.types ==>
                  r.schema == config.schema
                  && r.types[query] == config.types[query].(fields := config.types[query].fields[name := field]))
            && (query !in config.types ==>
                  r.schema == config.schema.(query := Some(query)) && r.types[query].fields == map[name := field])
            && (forall t | t in config.types && t != query :: t in r.types && r.types[t] == config.types[t])
            && r.types.Keys == config.types.Keys + {query}
            && r.unions == config.unions && r.enums == config.enums
  {
  }

  /** The methods of one service, each with the service's name. */
  function MethodCalls(s: ProtoService): (r: seq<(string, ProtoMethod)>)
    ensures |r| == |s.methods|
    ensures forall j | 0 <= j < |r| :: r[j] == (s.name, s.methods[j])
  {
    seq(|s.methods|, j requires 0 <= j < |s.methods| => (s.name, s.methods[j]))
  }

  /** The methods of the services, in order, each with its service's name. */
  function Calls(services: seq<ProtoService>): seq<(string, ProtoMethod)>
  {
    if |services| == 0 then []
    else Calls(services[..|services| - 1]) + MethodCalls(services[|services| - 1])
  }

  lemma CallsSnoc(services: seq<ProtoService>, i: nat)
    requires i < |services|
    ensures Calls(services[..i + 1]) == Calls(services[..i]) + MethodCalls(services[i])
  {
    assert services[..i + 1][..i] == services[..i];
  }

  lemma {:induction false} CallsPrefix(services: seq<ProtoService>, k: nat)
    requires k <= |services|
    ensures Calls(services[..k]) <= Calls(services)
    decreases |services|
  {
    if k < |services| {
      var init := services[..|services| - 1];
      CallsPrefix(init, k);
      assert init[..k] == services[..k];
    } else {
      assert services[..k] == services;
    }
  }

  /** The configuration after registering the query fields of `calls`; the first failing call decides the error. */
  function AppendQuery(naming: Naming, namespace: seq<string>, query: string, config: Config,
                       calls: seq<(string, ProtoMethod)>): Result<Config, RefError>
  {
    if |calls| == 0 then Ok(config)
    else
      match AppendQuery(naming, namespace, query, config, calls[..|calls| - 1])
      case Err(e) => Err(e)
      case Ok(c) =>
        var call := calls[|calls| - 1];
        match QueryField(naming, namespace, call.0, call.1)
        case Err(e) => Err(e)
        case Ok((name, field)) => Ok(AddQueryField(c, query, name, field))
  }

  /**
   * When every call succeeds, the query type exists, holds a field for every
   * call, and is the schema's query root unless it was already defined.
   */
  lemma AppendQueryRegistersAll(naming: Naming, namespace: seq<string>, query: string,
                                config: Config, calls: seq<(string, ProtoMethod)>)
    requires |calls| > 0
    requires AppendQuery(naming, namespace, query, config, calls).Ok?
    ensures var r := AppendQuery(naming, namespace, query, config, calls).value;
            query in r.types
            && (forall k | 0 <= k < |calls| ::
                  naming.methodField(namespace, calls[k].0, calls[k].1.name) in r.types[query].fields)
            && r.schema == (if query in config.types then config.schema else config.schema.(query := Some(query)))
  {
    AppendQueryRoot(naming, namespace, query, config, calls);
    AppendQueryFields(naming, namespace, query, config, calls);
  }

  /** The query type exists and is the schema's query root unless it was already defined. */
  lemma {:induction false} AppendQueryRoot(naming: Naming, namespace: seq<string>, query: string,
                                           config: Config, calls: seq<(string, ProtoMethod)>)
    requires |calls| > 0
    requires AppendQuery(naming, namespace, query, config, calls).Ok?
    ensures var r := AppendQuery(naming, namespace, query, config, calls).value;
            query in r.types
            && r.schema == (if query in config.types then config.schema else config.schema.(query := Some(query)))
    decreases |calls|
  {
    var init := calls[..|calls| - 1];
    var c := AppendQuery(naming, namespace, query, config, init).value;
    var call := calls[|calls| - 1];
    var qf := QueryField(naming, namespace, call.0, call.1).value;
    assert AppendQuery(naming, namespace, query, config, calls) == Ok(AddQueryField(c, query, qf.0, qf.1));
    AddQueryFieldGrows(c, query, qf.0, qf.1);
    if |init| > 0 {
      AppendQueryRoot(naming, namespace, query, config, init);
    }
  }

  /** The query type holds a field for every call. */
  lemma {:induction false} AppendQueryFields(naming: Naming, namespace: seq<string>, query: string,
                                             config: Config, calls: seq<(string, ProtoMethod)>)
    requires |calls| > 0
    requires AppendQuery(naming, namespace, query, config, calls).Ok?
    ensures var r := AppendQuery(naming, namespace, query, config, calls).value;
            query in r.types
            && forall k | 0 <= k < |calls| ::
                 naming.methodField(namespace, calls[k].0, calls[k].1.name) in r.types[query].fields
    decreases |calls|
  {
    var init := calls[..|calls| - 1];
    var c := AppendQuery(naming, namespace, query, config, init).value;
    var call := calls[|calls| - 1];
    var qf := QueryField(naming, namespace, call.0, call.1).value;
    var r := AddQueryField(c, query, qf.0, qf.1);
    assert AppendQuery(naming, namespace, query, config, calls) == Ok(r);
    AddQueryFieldGrows(c, query, qf.0, qf.1);
    if |init| > 0 {
      AppendQueryFields(naming, namespace, query, config, init);
    }
    forall k | 0 <= k < |calls|
      ensures naming.methodField(namespace, calls[k].0, calls[k].1.name) in r.types[query].fields
    {
      if k < |init| {
        assert calls[k] == init[k];
      }
    }
  }

  /** Registering a query field keeps the fields already there and does not touch an existing query root. */
  lemma AddQueryFieldGrows(config: Config, query: string, name: string, field: Field)
    ensures var r := AddQueryField(config, query, name, field);
            query in r.types && name in r.types[query].fields
            && (query in config.types ==> config.types[query].fields.Keys <= r.types[query].fields.Keys)
            && r.schema == (if query in config.types then config.schema else config.schema.(query := Some(query)))
  {
    AddQueryFieldEffect(config, query, name, field);
  }

  /** The state `append_msg_type` and `append_query_service` thread through the generation. */
  class Context {
    var namespace: seq<string>
    var config: Config
    const query: string
    const naming: Naming

    constructor (query: string, naming: Naming)
      ensures this.query == query && this.naming == naming
      ensures namespace == [] && config == DefaultConfig
    {
      this.query := query;
      this.naming := naming;
      namespace := [];
      config := DefaultConfig;
    }

    /** `insert_type`. */
    method InsertType(name: string, ty: Type)
      modifies this
      ensures config == old(config).(types := old(config.types)[name := ty])
      ensures namespace == old(namespace)
    {
      config := config.(types := config.types[name := ty]);
    }

    /**
     * `insert_oneofs`: registers every generated variant as a type and a
     * union under the message name whose members are exactly their names.
     */
    method InsertOneofs(typeName: string, base: Type, groups: seq<OneofGroup>)
      modifies this
      ensures var vs := Variants(typeName, base, groups);
              config == old(config).(types := InsertAll(old(config.types), vs),
                                     unions := old(config.unions)[typeName := Union(Names(vs), None)])
      ensures namespace == old(namespace)
    {
      var unionTypes := CollectTypes(typeName, base, groups, []);
      ghost var config0 := config;
      var members: set<string> := {};
      for i := 0 to |unionTypes|
        invariant members == Names(unionTypes[..i])
        invariant config == config0.(types := InsertAll(config0.types, unionTypes[..i]))
        invariant namespace == old(namespace)
      {
        var p := unionTypes[i];
        InsertPrefixStep(config0.types, unionTypes, i);
        members := members + {p.0};
        InsertType(p.0, p.1);
      }
      assert unionTypes[..|unionTypes|] == unionTypes;
      config := config.(unions := config.unions[typeName := Union(members, None)]);
    }

    /**
     * `append_query_service`: a query field per service method, in order.
     * On failure the source discards the whole context, so only the
     * successful outcome is specified.
     */
    method AppendQueryService(services: seq<ProtoService>) returns (r: Result<(), RefError>)
      modifies this
      ensures var spec := AppendQuery(naming, namespace, query, old(config), Calls(services));
              (r.Ok? <==> spec.Ok?) && (r.Ok? ==> config == spec.value)
      ensures namespace == old(namespace)
    {
      if |services| == 0 {
        return Ok(());
      }
      ghost var config0 := config;
      for i := 0 to |services|
        invariant namespace == old(namespace)
        invariant AppendQuery(naming, namespace, query, config0, Calls(services[..i])) == Ok(config)
      {
        CallsSnoc(services, i);
        r := AppendServiceMethods(services[i], config0, Calls(services[..i]));
        if r.Err? {
          CallsPrefix(services, i + 1);
          AppendQueryErrSticks(naming, namespace, query, config0, Calls(services[..i + 1]), Calls(services));
          return;
        }
      }
      assert services[..|services|] == services;
      r := Ok(());
    }

    /** The inner loop of `append_query_service`: the methods of one service. */
    method AppendServiceMethods(service: ProtoService, ghost config0: Config, ghost before: seq<(string, ProtoMethod)>)
      returns (r: Result<(), RefError>)
      requires AppendQuery(naming, namespace, query, config0, before) == Ok(config)
      modifies this
      ensures var spec := AppendQuery(naming, namespace, query, config0, before + MethodCalls(service));
              (r.Ok? <==> spec.Ok?) && (r.Ok? ==> config == spec.value)
      ensures namespace == old(namespace)
    {
      ghost var start := config;
      ghost var goal := AppendMethods(naming, namespace, query, start, service.name, service.methods);
      AppendQueryMethods(naming, namespace, query, config0, before, start, service);
      var j := 0;
      while j < |service.methods|
        invariant j <= |service.methods|
        invariant namespace == old(namespace)
        invariant AppendMethods(naming, namespace, query, config, service.name, service.methods[j..]) == goal
      {
        var qf := QueryField(naming, namespace, service.name, service.methods[j]);
        if qf.Err? {
          return Err(qf.error);
        }
        assert service.methods[j..][1..] == service.methods[j + 1..];
        config := AddQueryField(config, query, qf.value.0, qf.value.1);
        j := j + 1;
      }
      r := Ok(());
    }
  }

  /** The query fields of the methods of one service added one by one from the front. */
  function AppendMethods(naming: Naming, namespace: seq<string>, query: string, config: Config,
                         service: string, methods: seq<ProtoMethod>): Result<Config, RefError>
    decreases |methods|
  {
    if |methods| == 0 then Ok(config)
    else
      match QueryField(naming, namespace, service, methods[0])
      case Err(e) => Err(e)
      case Ok((name, field)) => AppendMethods(naming, namespace, query, AddQueryField(config, query, name, field), service, methods[1..])
  }

  /** Adding the methods of a service from the front agrees with `AppendQuery` over the calls extended by them. */
  lemma {:induction false} AppendQueryMethods(naming: Naming, namespace: seq<string>, query: string, config: Config,
                                              before: seq<(string, ProtoMethod)>, c: Config, service: ProtoService)
    requires AppendQuery(naming, namespace, query, config, before) == Ok(c)
    ensures AppendQuery(naming, namespace, query, config, before + MethodCalls(service))
            == AppendMethods(naming, namespace, query, c, service.name, service.methods)
    decreases |service.methods|
  {
    var all := before + MethodCalls(service);
    if |service.methods| == 0 {
      assert all == before;
    } else {
      var m := service.methods[0];
      var next := before + [(service.name, m)];
      var tail := service.(methods := service.methods[1..]);
      assert all == next + MethodCalls(tail);
      assert next[..|next| - 1] == before;
      match QueryField(naming, namespace, service.name, m)
      case Err(e) =>
        AppendQueryErrSticks(naming, namespace, query, config, next, all);
      case Ok((name, field)) =>
        AppendQueryMethods(naming, namespace, query, config, next, AddQueryField(c, query, name, field), tail);
    }
  }

  /** Once a call fails, the whole sequence of calls it starts fails. */
  lemma {:induction false} AppendQueryErrSticks(naming: Naming, namespace: seq<string>, query: string, config: Config,
                                                prefix: seq<(string, ProtoMethod)>, calls: seq<(string, ProtoMethod)>)
    requires prefix <= calls
    requires AppendQuery(naming, namespace, query, config, prefix).Err?
    ensures AppendQuery(naming, namespace, query, config, calls) == AppendQuery(naming, namespace, query, config, prefix)
    decreases |calls|
  {
    if |calls| > |prefix| {
      assert prefix <= calls[..|calls| - 1];
      AppendQueryErrSticks(naming, namespace, query, config, prefix, calls[..|calls| - 1]);
    } else {
      assert calls == prefix;
    }
  }
}
