/**
 * The analysis a `ConfigModule` runs over a configuration
 * (src/config/config_module.rs): the closure of the field-reference graph
 * that `recurse_type` computes, the sets of input and output types built on
 * it, and the `Extensions` record with its right-biased merge.
 */
module ConfigModule {
  import opened Wrappers
  import opened ConfigModel

  /** `Config::find_type`. */
  function FindType(config: Config, name: string): (r: Option<Type>)
    ensures r.Some? <==> name in config.types
    ensures r.Some? ==> r.value == config.types[name]
  {
    if name in config.types then Some(config.types[name]) else None
  }

  /** The field types of the type called `name`; none when no such type is declared. */
  function FieldTypesOf(config: Config, name: string): set<string>
  {
    if name in config.types then
      var fields := config.types[name].fields;
      set k | k in fields :: fields[k].typeOf
    else {}
  }

  /** Every field type of every declared type. */
  function AllFieldTypes(config: Config): set<string>
  {
    set n, k | n in config.types && k in config.types[n].fields :: config.types[n].fields[k].typeOf
  }

  lemma FieldTypeDeclared(config: Config, n: string, k: string)
    requires n in config.types && k in config.types[n].fields
    ensures config.types[n].fields[k].typeOf in FieldTypesOf(config, n)
    ensures config.types[n].fields[k].typeOf in AllFieldTypes(config)
  {
  }

  // ----- the field-reference graph -----

  /** Every member of `s` outside `pending` has all its field types in `s`. */
  ghost predicate ClosedExcept(config: Config, s: set<string>, pending: set<string>)
  {
    forall x | x in s && x !in pending :: FieldTypesOf(config, x) <= s
  }

  ghost predicate Closed(config: Config, s: set<string>)
  {
    ClosedExcept(config, s, {})
  }

  /** A walk along field references. */
  ghost predicate IsPath(config: Config, p: seq<string>)
  {
    |p| > 0 && forall i | 0 <= i < |p| - 1 :: p[i + 1] in FieldTypesOf(config, p[i])
  }

  /** `x` can be reached from one of `roots` by following field types. */
  ghost predicate ReachableFrom(config: Config, roots: set<string>, x: string)
  {
    exists p :: IsPath(config, p) && p[0] in roots && p[|p| - 1] == x
  }

  lemma ReachRoot(config: Config, roots: set<string>, x: string)
    requires x in roots
    ensures ReachableFrom(config, roots, x)
  {
    assert IsPath(config, [x]);
  }

  lemma ReachStep(config: Config, roots: set<string>, x: string, y: string)
    requires ReachableFrom(config, roots, x) && y in FieldTypesOf(config, x)
    ensures ReachableFrom(config, roots, y)
  {
    var p :| IsPath(config, p) && p[0] in roots && p[|p| - 1] == x;
    var q := p + [y];
    assert forall i | 0 <= i < |q| - 1 :: q[i + 1] in FieldTypesOf(config, q[i]) by {
      forall i | 0 <= i < |q| - 1 ensures q[i + 1] in FieldTypesOf(config, q[i]) {
        if i < |p| - 1 {
          assert q[i] == p[i] && q[i + 1] == p[i + 1];
        }
      }
    }
    assert IsPath(config, q) && q[0] in roots && q[|q| - 1] == y;
  }

  /** A closed set that contains the roots contains everything reachable from them. */
  lemma {:induction false} ClosedHoldsReachable(config: Config, s: set<string>, roots: set<string>, p: seq<string>)
    requires Closed(config, s) && roots <= s
    requires IsPath(config, p) && p[0] in roots
    ensures p[|p| - 1] in s
    decreases |p|
  {
    if |p| > 1 {
      var q := p[..|p| - 1];
      assert IsPath(config, q) by {
        forall i | 0 <= i < |q| - 1 ensures q[i + 1] in FieldTypesOf(config, q[i]) {
          assert q[i] == p[i] && q[i + 1] == p[i + 1];
        }
      }
      ClosedHoldsReachable(config, s, roots, q);
      assert p[|p| - 1] in FieldTypesOf(config, q[|q| - 1]);
    }
  }

  /**
   * `recurse_type`: adds to `types` every field type of `typeOf` that it
   * does not hold yet, and recurses only on a name it has just inserted.
   * `pending` names the types whose fields the callers are still walking,
   * and `roots` where the walk started; both exist for the proof only.
   */
  method RecurseType(config: Config, typeOf: string, types: set<string>,
                     ghost pending: set<string>, ghost roots: set<string>)
    returns (out: set<string>)
    requires pending <= types
    requires ClosedExcept(config, types, pending)
    requires ReachableFrom(config, roots, typeOf)
    ensures types <= out
    ensures FieldTypesOf(config, typeOf) <= out
    ensures ClosedExcept(config, out, pending)
    ensures forall x | x in out && x !in types :: ReachableFrom(config, roots, x)
    decreases AllFieldTypes(config) - types
  {
    out := types;
    match FindType(config, typeOf) {
      case None =>
      case Some(t) =>
        var remaining := t.fields.Keys;
        while remaining != {}
          invariant remaining <= t.fields.Keys
          invariant types <= out
          invariant forall k | k in t.fields && k !in remaining :: t.fields[k].typeOf in out
          invariant ClosedExcept(config, out, pending)
          invariant forall x | x in out && x !in types :: ReachableFrom(config, roots, x)
          decreases remaining
        {
          var k :| k in remaining;
          remaining := remaining - {k};
          var ft := t.fields[k].typeOf;
          if ft !in out {
            FieldTypeDeclared(config, typeOf, k);
            ReachStep(config, roots, typeOf, ft);
            ghost var before := out;
            assert AllFieldTypes(config) - (out + {ft}) < AllFieldTypes(config) - types by {
              assert ft in AllFieldTypes(config) - types;
            }
            out := RecurseType(config, ft, out + {ft}, pending + {ft}, roots);
            assert (pending + {ft}) - {ft} == pending;
          }
        }
        assert FieldTypesOf(config, typeOf) <= out by {
          forall x | x in FieldTypesOf(config, typeOf) ensures x in out {
            var k :| k in t.fields && t.fields[k].typeOf == x;
          }
        }
    }
  }

  // ----- input types -----

  /** The non-scalar argument types of a field. */
  function FieldArgTypes(f: Field, isScalar: string -> bool): set<string>
  {
    set a | a in f.args && !isScalar(f.args[a].typeOf) :: f.args[a].typeOf
  }

  /** The non-scalar argument types of the fields of a type. */
  function TypeArgTypes(t: Type, isScalar: string -> bool): set<string>
  {
    set k, x | k in t.fields && x in FieldArgTypes(t.fields[k], isScalar) :: x
  }

  /** The non-scalar argument types of the non-interface types among `names`. */
  function ArgTypesIn(config: Config, isScalar: string -> bool, names: set<string>): set<string>
  {
    set n, x | n in names && n in config.types && !config.types[n].interface
                 && x in TypeArgTypes(config.types[n], isScalar) :: x
  }

  function ArgTypes(config: Config, isScalar: string -> bool): set<string>
  {
    ArgTypesIn(config, isScalar, config.types.Keys)
  }

  /**
   * The innermost step of `get_input_types` for one non-scalar argument
   * type: its field types and their closure, then the argument type itself.
   */
  method AddArgType(config: Config, argType: string, types: set<string>, ghost roots: set<string>)
    returns (out: set<string>)
    requires Closed(config, types)
    requires argType in roots
    ensures Closed(config, out)
    ensures types + {argType} <= out
    ensures forall x | x in out && x !in types :: ReachableFrom(config, roots, x)
  {
    out := types;
    ReachRoot(config, roots, argType);
    match FindType(config, argType) {
      case None =>
      case Some(t) =>
        var remaining := t.fields.Keys;
        while remaining != {}
          invariant remaining <= t.fields.Keys
          invariant types <= out
          invariant forall k | k in t.fields && k !in remaining :: t.fields[k].typeOf in out
          invariant Closed(config, out)
          invariant forall x | x in out && x !in types :: ReachableFrom(config, roots, x)
          decreases remaining
        {
          var k :| k in remaining;
          remaining := remaining - {k};
          var ft := t.fields[k].typeOf;
          FieldTypeDeclared(config, argType, k);
          ReachStep(config, roots, argType, ft);
          out := RecurseType(config, ft, out + {ft}, {ft}, roots);
          assert {ft} - {ft} == {};
        }
        assert FieldTypesOf(config, argType) <= out by {
          forall x | x in FieldTypesOf(config, argType) ensures x in out {
            var k :| k in t.fields && t.fields[k].typeOf == x;
          }
        }
    }
    out := out + {argType};
  }

  /** The argument loops of `get_input_types` over the fields of one non-interface type. */
  method AddTypeArgTypes(config: Config, isScalar: string -> bool, ty: Type, types: set<string>,
                         ghost roots: set<string>)
    returns (out: set<string>)
    requires Closed(config, types)
    requires TypeArgTypes(ty, isScalar) <= roots
    ensures Closed(config, out)
    ensures types + TypeArgTypes(ty, isScalar) <= out
    ensures forall x | x in out && x !in types :: ReachableFrom(config, roots, x)
  {
    out := types;
    var fieldNames := ty.fields.Keys;
    while fieldNames != {}
      invariant fieldNames <= ty.fields.Keys
      invariant types <= out
      invariant forall k, x | k in ty.fields && k !in fieldNames && x in FieldArgTypes(ty.fields[k], isScalar) :: x in out
      invariant Closed(config, out)
      invariant forall x | x in out && x !in types :: ReachableFrom(config, roots, x)
      decreases fieldNames
    {
      var k :| k in fieldNames;
      fieldNames := fieldNames - {k};
      var args := ty.fields[k].args;
      var argNames := args.Keys;
      ghost var mid := out;
      while argNames != {}
        invariant argNames <= args.Keys
        invariant mid <= out
        invariant forall a | a in args && a !in argNames && !isScalar(args[a].typeOf) :: args[a].typeOf in out
        invariant Closed(config, out)
        invariant forall x | x in out && x !in types :: ReachableFrom(config, roots, x)
        decreases argNames
      {
        var a :| a in argNames;
        argNames := argNames - {a};
        var arg := args[a];
        if !isScalar(arg.typeOf) {
          assert arg.typeOf in FieldArgTypes(ty.fields[k], isScalar);
          out := AddArgType(config, arg.typeOf, out, roots);
        }
      }
    }
  }

  /**
   * `get_input_types`: the non-scalar argument types of the non-interface
   * types, closed under field references. The result is closed, holds every
   * such argument type, and holds nothing unreachable from them; by
   * `ClosedHoldsReachable` it is the least such set.
   */
  method GetInputTypes(config: Config, isScalar: string -> bool) returns (types: set<string>)
    ensures ArgTypes(config, isScalar) <= types
    ensures Closed(config, types)
    ensures forall x | x in types :: ReachableFrom(config, ArgTypes(config, isScalar), x)
  {
    ghost var roots := ArgTypes(config, isScalar);
    types := {};
    var names := config.types.Keys;
    while names != {}
      invariant names <= config.types.Keys
      invariant ArgTypesIn(config, isScalar, config.types.Keys - names) <= types
      invariant Closed(config, types)
      invariant forall x | x in types :: ReachableFrom(config, roots, x)
      decreases names
    {
      var n :| n in names;
      names := names - {n};
      var ty := config.types[n];
      if !ty.interface {
        assert TypeArgTypes(ty, isScalar) <= roots;
        types := AddTypeArgTypes(config, isScalar, ty, types, roots);
      }
    }
  }

  /** The input types are exactly what the argument types reach. */
  lemma InputTypesLeast(config: Config, isScalar: string -> bool, types: set<string>, s: set<string>)
    requires forall x | x in types :: ReachableFrom(config, ArgTypes(config, isScalar), x)
    requires Closed(config, s) && ArgTypes(config, isScalar) <= s
    ensures types <= s
  {
    forall x | x in types ensures x in s {
      var p :| IsPath(config, p) && p[0] in ArgTypes(config, isScalar) && p[|p| - 1] == x;
      ClosedHoldsReachable(config, s, ArgTypes(config, isScalar), p);
    }
  }

  // ----- output types -----

  /** The query and mutation root names, when set. */
  function RootNames(config: Config): set<string>
  {
    (if config.schema.query.Some? then {config.schema.query.value} else {})
    + (if config.schema.mutation.Some? then {config.schema.mutation.value} else {})
  }

  /** Whether `get_output_types` collects the field types of type `n`. */
  predicate CountsAsOutput(config: Config, inputTypes: set<string>, n: string)
    requires n in config.types
  {
    (config.types[n].interface || |config.types[n].fields| > 0) && n !in inputTypes
  }

  function OutputFieldTypesIn(config: Config, inputTypes: set<string>, names: set<string>): set<string>
  {
    set n, k | n in names && n in config.types && CountsAsOutput(config, inputTypes, n)
                 && k in config.types[n].fields :: config.types[n].fields[k].typeOf
  }

  /** What `get_output_types` computes. */
  function OutputTypes(config: Config, inputTypes: set<string>): set<string>
  {
    RootNames(config) + OutputFieldTypesIn(config, inputTypes, config.types.Keys)
  }

  /** The types named by the fields of `t`. */
  function FieldTypes(t: Type): set<string>
  {
    set k | k in t.fields :: t.fields[k].typeOf
  }

  /** The field loop of `get_output_types` for one type. */
  method InsertFieldTypes(ty: Type, types: set<string>) returns (out: set<string>)
    ensures out == types + FieldTypes(ty)
  {
    out := types;
    var fieldNames := ty.fields.Keys;
    while fieldNames != {}
      invariant fieldNames <= ty.fields.Keys
      invariant out == types + set k | k in ty.fields && k !in fieldNames :: ty.fields[k].typeOf
      decreases fieldNames
    {
      var k :| k in fieldNames;
      fieldNames := fieldNames - {k};
      out := out + {ty.fields[k].typeOf};
    }
  }

  /** One turn of the type loop of `get_output_types`. */
  lemma OutputLoopStep(config: Config, inputTypes: set<string>, done: set<string>, n: string,
                       prev: set<string>, next: set<string>)
    requires n in config.types
    requires prev == RootNames(config) + OutputFieldTypesIn(config, inputTypes, done)
    requires next == prev + (if CountsAsOutput(config, inputTypes, n) then FieldTypes(config.types[n]) else {})
    ensures next == RootNames(config) + OutputFieldTypesIn(config, inputTypes, done + {n})
  {
    OutputStepCovered(config, inputTypes, done, n);
    OutputStepComplete(config, inputTypes, done, n);
  }

  /** The field types collected with `n` are those collected without it, plus those of `n` if it counts. */
  lemma OutputStepCovered(config: Config, inputTypes: set<string>, done: set<string>, n: string)
    requires n in config.types
    ensures OutputFieldTypesIn(config, inputTypes, done + {n})
            <= OutputFieldTypesIn(config, inputTypes, done)
               + (if CountsAsOutput(config, inputTypes, n) then FieldTypes(config.types[n]) else {})
  {
    forall x | x in OutputFieldTypesIn(config, inputTypes, done + {n})
      ensures x in OutputFieldTypesIn(config, inputTypes, done)
                   + (if CountsAsOutput(config, inputTypes, n) then FieldTypes(config.types[n]) else {})
    {
      var m, k :| m in done + {n} && m in config.types && CountsAsOutput(config, inputTypes, m)
                  && k in config.types[m].fields && x == config.types[m].fields[k].typeOf;
      if m == n {
        assert x in FieldTypes(config.types[n]);
      } else {
        assert x in OutputFieldTypesIn(config, inputTypes, done);
      }
    }
  }

  /** Conversely, nothing collected without `n`, and no field type of a counting `n`, is lost. */
  lemma OutputStepComplete(config: Config, inputTypes: set<string>, done: set<string>, n: string)
    requires n in config.types
    ensures OutputFieldTypesIn(config, inputTypes, done)
            + (if CountsAsOutput(config, inputTypes, n) then FieldTypes(config.types[n]) else {})
            <= OutputFieldTypesIn(config, inputTypes, done + {n})
  {
    forall x | x in OutputFieldTypesIn(config, inputTypes, done)
      ensures x in OutputFieldTypesIn(config, inputTypes, done + {n})
    {
      var m, k :| m in done && m in config.types && CountsAsOutput(config, inputTypes, m)
                  && k in config.types[m].fields && x == config.types[m].fields[k].typeOf;
    }
    if CountsAsOutput(config, inputTypes, n) {
      forall x | x in FieldTypes(config.types[n])
        ensures x in OutputFieldTypesIn(config, inputTypes, done + {n})
      {
        var k :| k in config.types[n].fields && x == config.types[n].fields[k].typeOf;
      }
    }
  }

  /** The type loop of `get_output_types`. */
  method InsertOutputFieldTypes(config: Config, inputTypes: set<string>, types: set<string>)
    returns (out: set<string>)
    requires types == RootNames(config)
    ensures out == RootNames(config) + OutputFieldTypesIn(config, inputTypes, config.types.Keys)
  {
    out := types;
    var names := config.types.Keys;
    ghost var done: set<string> := {};
    assert OutputFieldTypesIn(config, inputTypes, done) == {};
    while names != {}
      invariant names <= config.types.Keys && done + names == config.types.Keys && done !! names
      invariant out == RootNames(config) + OutputFieldTypesIn(config, inputTypes, done)
      decreases names
    {
      var n :| n in names;
      ghost var prev := out;
      var ty := config.types[n];
      if (ty.interface || |ty.fields| > 0) && n !in inputTypes {
        out := InsertFieldTypes(ty, out);
      }
      OutputLoopStep(config, inputTypes, done, n, prev, out);
      names := names - {n};
      done := done + {n};
    }
    assert done == config.types.Keys;
  }

  /** `get_output_types`. */
  method GetOutputTypes(config: Config, inputTypes: set<string>) returns (types: set<string>)
    ensures types == OutputTypes(config, inputTypes)
  {
    types := {};
    if config.schema.query.Some? {
      types := types + {config.schema.query.value};
    }
    if config.schema.mutation.Some? {
      types := types + {config.schema.mutation.value};
    }
    types := InsertOutputFieldTypes(config, inputTypes, types);
  }

  /**
   * Membership in the output types: the query and mutation roots, and the
   * field types of every type that is an interface or has fields and is
   * not an input type.
   */
  lemma OutputTypesMembers(config: Config, inputTypes: set<string>, x: string)
    ensures x in OutputTypes(config, inputTypes) <==>
              x in RootNames(config)
              || exists n, k | n in config.types && k in config.types[n].fields ::
                   n !in inputTypes && (config.types[n].interface || |config.types[n].fields| > 0)
                   && config.types[n].fields[k].typeOf == x
  {
  }

  /** The interface-or-has-fields guard changes nothing: a type without fields adds no field type. */
  lemma OutputGuardRedundant(config: Config, inputTypes: set<string>)
    ensures OutputTypes(config, inputTypes)
            == RootNames(config) + set n, k | n in config.types && n !in inputTypes && k in config.types[n].fields
                                               :: config.types[n].fields[k].typeOf
  {
  }

  // ----- extensions -----

  /** Certificates, private keys, endpoints and JWK sets are carried, never inspected. */
  datatype Certificate = Certificate(der: seq<int>)
  datatype PrivateKey = PrivateKey(der: seq<int>)
  datatype JwkSet = JwkSet(json: string)
  datatype Endpoint = Endpoint(repr: string)
  datatype FileDescriptor = FileDescriptor(name: string)

  datatype FileDescriptorSet = FileDescriptorSet(file: seq<FileDescriptor>)

  /** `Content<A>`: a loaded file and the id it was linked with. */
  datatype Content<A> = Content(id: Option<string>, content: A)

  datatype Extensions = Extensions(
    grpcFileDescriptorSet: Option<FileDescriptorSet>,
    script: Option<string>,
    cert: seq<Certificate>,
    keys: seq<PrivateKey>,
    endpointSet: seq<Endpoint>,
    htpasswd: seq<Content<string>>,
    jwks: seq<Content<JwkSet>>)

  /** `Extensions::default()`. */
  const DefaultExtensions: Extensions := Extensions(None, None, [], [], [], [], [])

  /** `FileDescriptorSet::merge_right`: the files of the left set, then those of the right. */
  function MergeDescriptorSets(a: FileDescriptorSet, b: FileDescriptorSet): (r: FileDescriptorSet)
    ensures |r.file| == |a.file| + |b.file|
    ensures r.file[..|a.file|] == a.file && r.file[|a.file|..] == b.file
  {
    FileDescriptorSet(a.file + b.file)
  }

  /** The optional descriptor set after a merge: both sets merged, or whichever one is present. */
  function MergeDescriptorOption(a: Option<FileDescriptorSet>, b: Option<FileDescriptorSet>)
    : (r: Option<FileDescriptorSet>)
    ensures a.None? && b.None? ==> r.None?
    ensures a.Some? && b.None? ==> r == a
    ensures a.None? && b.Some? ==> r == b
    ensures a.Some? && b.Some? ==> r == Some(FileDescriptorSet(a.value.file + b.value.file))
  {
    match (a, b)
    case (Some(x), Some(y)) => Some(MergeDescriptorSets(x, y))
    case (Some(_), None) => a
    case (None, _) => b
  }

  /** The merge of two optional scripts: the given merge when both exist, otherwise whichever exists. */
  function MergeScript(a: Option<string>, b: Option<string>, mergeScripts: (string, string) -> string)
    : Option<string>
  {
    match (a, b)
    case (Some(x), Some(y)) => Some(mergeScripts(x, y))
    case (Some(_), None) => a
    case (None, _) => b
  }

  /**
   * `Extensions::merge_right`. The vectors are concatenated left then
   * right; the keys of the right side replace those of the left only when
   * there are any. The merge of two scripts is a parameter.
   */
  function MergeRight(self: Extensions, other: Extensions, mergeScripts: (string, string) -> string)
    : (r: Extensions)
    ensures r.keys == (if |other.keys| > 0 then other.keys else self.keys)
    ensures r.grpcFileDescriptorSet == MergeDescriptorOption(self.grpcFileDescriptorSet, other.grpcFileDescriptorSet)
    ensures r.cert == self.cert + other.cert && r.endpointSet == self.endpointSet + other.endpointSet
    ensures r.htpasswd == self.htpasswd + other.htpasswd && r.jwks == self.jwks + other.jwks
  {
    Extensions(
      MergeDescriptorOption(self.grpcFileDescriptorSet, other.grpcFileDescriptorSet),
      MergeScript(self.script, other.script, mergeScripts),
      self.cert + other.cert,
      if |other.keys| > 0 then other.keys else self.keys,
      self.endpointSet + other.endpointSet,
      self.htpasswd + other.htpasswd,
      self.jwks + other.jwks)
  }

  /** `Extensions::has_auth`. */
  function HasAuth(e: Extensions): (r: bool)
    ensures r <==> |e.htpasswd| > 0 || |e.jwks| > 0
  {
    |e.htpasswd| != 0 || |e.jwks| != 0
  }

  /** `Extensions::add_proto`, returning the updated extensions. */
  function AddProto(e: Extensions, descriptors: FileDescriptorSet): (r: Extensions)
    ensures r == e.(grpcFileDescriptorSet := MergeDescriptorOption(e.grpcFileDescriptorSet, Some(descriptors)))
  {
    match e.grpcFileDescriptorSet
    case Some(s) => e.(grpcFileDescriptorSet := Some(FileDescriptorSet(s.file + descriptors.file)))
    case None => e.(grpcFileDescriptorSet := Some(descriptors))
  }

  /** Adding a proto is merging in extensions that carry only that descriptor set. */
  lemma AddProtoIsMerge(e: Extensions, descriptors: FileDescriptorSet, mergeScripts: (string, string) -> string)
    ensures AddProto(e, descriptors) == MergeRight(e, DefaultExtensions.(grpcFileDescriptorSet := Some(descriptors)), mergeScripts)
  {
    assert e.cert + [] == e.cert && e.endpointSet + [] == e.endpointSet;
    assert e.htpasswd + [] == e.htpasswd && e.jwks + [] == e.jwks;
  }

  /** Default extensions are a neutral element of the merge on either side. */
  lemma MergeDefault(e: Extensions, mergeScripts: (string, string) -> string)
    ensures MergeRight(e, DefaultExtensions, mergeScripts) == e
    ensures MergeRight(DefaultExtensions, e, mergeScripts) == e
  {
    assert e.cert + [] == e.cert && e.endpointSet + [] == e.endpointSet;
    assert e.htpasswd + [] == e.htpasswd && e.jwks + [] == e.jwks;
    assert [] + e.cert == e.cert && [] + e.endpointSet == e.endpointSet;
    assert [] + e.htpasswd == e.htpasswd && [] + e.jwks == e.jwks;
  }

  /** Merging is associative on descriptor sets and keys. */
  lemma MergeAssociative(a: Extensions, b: Extensions, c: Extensions, mergeScripts: (string, string) -> string)
    ensures var left := MergeRight(MergeRight(a, b, mergeScripts), c, mergeScripts);
            var right := MergeRight(a, MergeRight(b, c, mergeScripts), mergeScripts);
            left.grpcFileDescriptorSet == right.grpcFileDescriptorSet && left.keys == right.keys
            && left.cert == right.cert && left.htpasswd == right.htpasswd && left.jwks == right.jwks
  {
    var ga, gb, gc := a.grpcFileDescriptorSet, b.grpcFileDescriptorSet, c.grpcFileDescriptorSet;
    if ga.Some? && gb.Some? && gc.Some? {
      assert ga.value.file + gb.value.file + gc.value.file == ga.value.file + (gb.value.file + gc.value.file);
    }
  }

  /** Authentication survives a merge exactly when one side has it. */
  lemma MergeHasAuth(a: Extensions, b: Extensions, mergeScripts: (string, string) -> string)
    ensures HasAuth(MergeRight(a, b, mergeScripts)) <==> HasAuth(a) || HasAuth(b)
  {
  }

  /** `ConfigModule` as `From<Config>` builds it. */
  datatype Module = Module(config: Config, extensions: Extensions, inputTypes: set<string>, outputTypes: set<string>)

  /** `ConfigModule::from`: the input types, then the output types that are not input types. */
  method FromConfig(config: Config, isScalar: string -> bool) returns (m: Module)
    ensures m.config == config && m.extensions == DefaultExtensions
    ensures Closed(config, m.inputTypes) && ArgTypes(config, isScalar) <= m.inputTypes
    ensures m.outputTypes == OutputTypes(config, m.inputTypes)
  {
    var inputTypes := GetInputTypes(config, isScalar);
    var outputTypes := GetOutputTypes(config, inputTypes);
    m := Module(config, DefaultExtensions, inputTypes, outputTypes);
  }
}
