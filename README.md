# tailcall core, modelled in Dafny

This project models eight pieces of the tailcall GraphQL runtime and its configuration generators. They turn configuration into resolvers, and they expand request bodies for batched upstream calls. Each piece has its own module:

- `Expander` (`expander.dfy`): the batch body expander of the HTTP layer.
  - Every array of a JSON body template is repeated once per request of a batch, copy by copy.
  - Inside copy `i`, every `{{.value.` / `{{value.` template is redirected to element `i`.
- `IrModel` (`ir_model.dfy`): the resolver expression tree `IR`.
  - Its generic top-down rewrite `modify`.
  - `Cache::wrap`, which is built on `modify`.
  - `pipe`, and the `is_dependent` / `dedupe` classifiers of an `IO` node.
- `FromProto` (`from_proto.dfy`): configuration generation from protobuf descriptors.
  - The expansion of `oneof` groups into variant types and a union.
  - The primitive-type table and the splitting of fully-qualified references.
  - The `google.protobuf.Empty` conventions and the label rules of a message field.
  - The query fields of a service. The `Context` class holds the namespace and the configuration under construction.
- `ConfigModule` (`config_module.dfy`): the analysis a `ConfigModule` runs.
  - The reachability closure `recurse_type`.
  - The input and output type sets.
  - The `Extensions` record with its right-biased merge, `add_proto` and `has_auth`.
- `FromOpenapi` (`from_openapi.dfy`): configuration generation from an OpenAPI 3 document.
  - The schema-kind decision of `get_schema_type`.
  - Inline type naming (`Type<n>`) and the counter of `define_types`.
  - The `allOf` accumulation.
  - `define_type`.
  - The "Path Templating" rewrite of `{name}` path segments into `{{args.name}}`, with the other arguments becoming query parameters.
  - The `Converter` class holds the inline queue, its frozen flag and the definitions.
- `PostSchema` (`post.dfy`): the hand-written `serde` deserializer of `Post`, as a state machine over a key/value stream.
- `IntoSchema` (`into_schema.dfy`): `to_type_ref`, from blueprint types to dynamic-schema type references.
- `ServerBlueprint` (`server.dfy`): the validation of the `@server` settings.
  - The HTTP version branch, the hostname, response and experimental headers, the script and CORS.
  - Fused validation that accumulates errors.

Shared modules:
- `Wrappers`: `Option`/`Result`.
- `Strings`: ASCII lower-casing, prefix and substring tests, replace-all, decimal rendering, `rsplit_once`.
- `ConfigModel`: the `Config`/`Type`/`Field`/`Arg`/`Union`/`Enum` records the generators produce.

Library functions that the code calls but that are not shown are parameters of the model:
- GraphQL naming of protobuf names;
- Pascal casing;
- IP-address and header parsing;
- CORS conversion;
- `is_scalar`;
- the merge of two scripts.

Imperative source code is modelled imperatively:
- `collect_types`, `insert_oneofs` and `append_query_service` are methods of the `Context` class.
- `recurse_type`, `get_input_types` and `get_output_types` are methods with loops over sets.
- The converter of `from_openapi.rs` is a class whose methods update its queues and maps.
- `visit_map` is a `while` loop.
- The batch loop of `expand_inner` is a `for`-style loop.

Each method is proved against a specification function, and the properties are proved about those functions.

## Model

| member | source | states |
|---|---|---|
| Expander.UpdateAll | src/core/http/expander.rs:36-40 | one batch copy keeps the number of elements |
| Expander.UpdateMustacheExpr | src/core/http/expander.rs:49-75 | a copy keeps the value's kind, its object keys and array lengths, and every number, boolean and null. Only strings are rewritten |
| Expander.BatchCopies | src/core/http/expander.rs:33-42 | the `for index in 0..batch_size` loop builds exactly `Batched`: length n·batch_size, element i·n+j is copy i of element j |
| Expander.ExpandInner | src/core/http/expander.rs:18-47 | the recursive method computes `Expand` (objects member by member, arrays batched, other values as they are) |
| Expander.Expand | src/core/http/expander.rs:18-47 | an object keeps exactly its keys, an array of n elements becomes n × batch_size elements, and every other value is returned as it is |
| Expander.BatchedLength | src/core/http/expander.rs:35-42 | the batched list has n × batch_size elements |
| Expander.BatchedAt | src/core/http/expander.rs:35-42 | element i·n+j of the batch is copy i of element j (index-major layout) |
| Expander.BatchedLayout | src/core/http/expander.rs:35-42 | length and every position of the batch at once |
| Expander.ExpandArrayLength | src/core/http/expander.rs:27-43 | an array of n elements expands to n × batch_size elements, and to none with batch size 0 |
| Expander.ExpandArrayAt | src/core/http/expander.rs:27-43 | element i·n+j of an expanded array is `update_mustache_expr(expand(x_j), i)` |
| Expander.ExpandObject | src/core/http/expander.rs:20-26 | expanding an object keeps exactly its keys, and each value is the expansion of the original |
| Expander.ExpandScalar | src/core/http/expander.rs:45 | numbers, booleans, null and strings outside arrays are returned unchanged |
| Expander.UpdatePreservesShape | src/core/http/expander.rs:49-64 | `update_mustache_expr` keeps kinds, object keys, array lengths and non-string leaves |
| Expander.UpdateTemplateFree | src/core/http/expander.rs:65-75 | a value in which no string mentions a value template is unchanged by every copy |
| Expander.UpdateStringUnguarded | src/core/http/expander.rs:65-73 | the `contains` guard only saves work: the rewrite of a string without templates is the string |
| Expander.ReplaceAllAfterBraces | src/core/http/expander.rs:66-69 | replace-all leaves `{{` followed by a character that rules the pattern out alone |
| Expander.RewriteDotTemplate | src/core/http/expander.rs:66-68 | `{{.value.<path>` becomes `{{.value.<index>.<path>` |
| Expander.RewriteBareTemplate | src/core/http/expander.rs:69 | `{{value.<path>` becomes `{{value.<index>.<path>` |
| Expander.ExpandArrayFree | src/core/http/expander.rs:18-47 | a value without arrays is its own expansion |
| Expander.ExpandSingleton | src/core/http/expander.rs:20-26 | a one-member object expands its member |
| Expander.BatchedPair | src/core/http/expander.rs:35-42 | two copies of a one-element array are copies 0 and 1 |
| Expander.ExpandPair | src/core/http/expander.rs:27-43 | a one-element array with batch size 2 becomes its copies 0 and 1 |
| Expander.PlainString | src/core/http/expander.rs:71-73 | a string without `{` is never rewritten |
| Expander.UpdateInsert | src/core/http/expander.rs:51-56 | rewriting commutes with adding a member to an object |
| Expander.ExpandTwoMembers | src/core/http/expander.rs:20-26 | expanding a two-member object expands both members |
| Expander.ExpandStringObject | src/core/http/expander.rs:20-26 | an object of strings is its own expansion |
| Expander.DotCopies | src/core/http/expander.rs:66-68 | copies 0 and 1 of a `{{.value.` template |
| Expander.NestedArrayVector | src/core/http/expander.rs:89-97 | the first unit-test vector: the nested array `d` becomes `["{{.value.0.userId}}","{{.value.1.userId}}"]` |
| Expander.ArrayOfObjectVector | src/core/http/expander.rs:100-120 | the second vector: two copies of the object, its templates indexed 0 and 1, "Hello World" kept |
| Expander.PostCopy0 | src/core/http/expander.rs:108-113 | copy 0 of the object of the second vector |
| Expander.PostCopy1 | src/core/http/expander.rs:114-118 | copy 1 of the object of the second vector |
| Expander.TripleCopy | src/core/http/expander.rs:51-56 | copy i of a three-member object of strings, given the copies of its strings |
| Expander.TemplateBesidePlainVector | src/core/http/expander.rs:123-140 | the third vector: `metadata` kept, `items` indexed 0 and 1 |
| Expander.KeyValueItems | src/core/http/expander.rs:145-164 | the `items` array of the fourth vector with batch size 2 |
| Expander.ArrayInsideObjectVector | src/core/http/expander.rs:143-166 | the fourth vector: the array inside the object is batched, the plain member kept |
| IrModel.IsDependent | src/core/ir/model.rs:99-106 | the stored flag for Http and GraphQL, always true for Grpc, always false for Js |
| IrModel.Dedupe | src/core/ir/model.rs:108-115 | the stored flag for Http, GraphQL and Grpc, always false for Js |
| IrModel.PipeTo | src/core/ir/model.rs:168-170 | `pipe(a, b)` is `Pipe(a, b)` |
| IrModel.Modify | src/core/ir/model.rs:172-220 | a `Some` answer is the result. On `None`, the leaves stay as they are, non-IR payloads are kept, and the cached IO is re-wrapped with the original `max_age` only when it comes back as an `IO` |
| IrModel.ModifyIoIsModify | src/core/ir/model.rs:192 | the bare IO case of `modify` is the modifier's answer or the node itself |
| IrModel.ModifyDecliningIsIdentity | src/core/ir/model.rs:184-218 | a modifier that always declines leaves the tree unchanged |
| IrModel.WrapCachesEveryIo | src/core/ir/model.rs:159-164 | wrapping only adds caches (stripping caches gives the stripped input), and every IO ends up cached with `max_age` |
| IrModel.Wrap | src/core/ir/model.rs:159-164 | a bare IO becomes a cache with `max_age`, and a cached IO is re-cached once with `max_age`. Any other node keeps its kind and payload |
| IrModel.WrapKeepsShape | src/core/ir/model.rs:159-164 | with caches stripped, the wrapped tree is the input tree |
| IrModel.WrapEntityShape | src/core/ir/model.rs:208-212 | the entity case of the shape law |
| IrModel.StripMapsAgree | src/core/ir/model.rs:208-212 | entity maps whose stripped values agree strip to the same entity |
| IrModel.WrapEntity | src/core/ir/model.rs:208-212 | wrapping an entity map wraps each value and keeps the keys |
| IrModel.WrapCachesAll | src/core/ir/model.rs:159-164 | after wrapping, every IO sits in a cache carrying the new `max_age` |
| IrModel.WrapRecachesOnce | src/core/ir/model.rs:193-198 | an already cached IO ends up in one cache carrying the new `max_age`, never two |
| IrModel.WrapFixesCached | src/core/ir/model.rs:159-164 | a tree whose calls are all cached with `max_age` is left alone |
| IrModel.WrapIdempotent | src/core/ir/model.rs:159-164 | wrapping twice with the same `max_age` is wrapping once |
| IrModel.WrapPipe | src/core/ir/model.rs:168-170 | wrapping distributes over `pipe` |
| FromProto.VariantCount | src/core/generator/from_proto.rs:60-87 | the product of (group size + 1) is at least 1 |
| FromProto.Variants | src/core/generator/from_proto.rs:48-88 | `collect_types` emits exactly `VariantCount(groups)` types |
| FromProto.GroupVariants | src/core/generator/from_proto.rs:71-87 | the variants of the first n fields of a group number n × the count of the rest |
| FromProto.CollectTypes | src/core/generator/from_proto.rs:48-88 | the recursive method appends exactly `Variants` to its output |
| FromProto.VariantsFirst | src/core/generator/from_proto.rs:64-69 | the first variant is the base type under one `__Var` per group |
| FromProto.NoGroupsSingleType | src/core/generator/from_proto.rs:54-58 | with no oneof group the output is exactly `[(type_name, base_type)]` |
| FromProto.GroupVariantsPrefix | src/core/generator/from_proto.rs:71-87 | the variants of fewer fields are a prefix of those of more fields |
| FromProto.GroupVariantsBlock | src/core/generator/from_proto.rs:71-87 | field i of a group owns the i-th block of its variants |
| FromProto.VariantLayout | src/core/generator/from_proto.rs:64-86 | the `__Var` variants come first, then one block per field in field order, each with that field added |
| FromProto.ExtendsBaseWiden | src/core/generator/from_proto.rs:72-79 | a variant of the remaining groups is also a variant of all groups |
| FromProto.ExtendsBaseStep | src/core/generator/from_proto.rs:72-79 | a variant built on the base type plus one oneof field extends the base type |
| FromProto.VariantsExtendBase | src/core/generator/from_proto.rs:72-79 | every variant is the base type with only required oneof fields added |
| FromProto.GroupVariantsExtendBase | src/core/generator/from_proto.rs:71-87 | the same for the variants of one group |
| FromProto.InsertAll | src/core/generator/from_proto.rs:101-105 | inserting the variants adds exactly their names to the type map |
| FromProto.InsertPrefixStep | src/core/generator/from_proto.rs:101-105 | inserting one more variant extends the type map and the names by it |
| FromProto.ConvertPrimitiveType | src/core/generator/from_proto.rs:283-296 | a case-insensitive `type_` prefix is stripped from the lower-cased name, otherwise the name is used as given, then the table is applied |
| FromProto.PrimitiveName | src/core/generator/from_proto.rs:286-294 | the table maps a name to one of Float, Int, Boolean, String or JSON, or leaves it as it is |
| FromProto.ConvertIgnoresCase | src/core/generator/from_proto.rs:284-285 | a prefixed name converts like its lower-case form |
| FromProto.ConvertTypePrefixed | src/core/generator/from_proto.rs:284-294 | `TYPE_u` converts to the table entry of lower-case u |
| FromProto.ConvertProstKinds | src/core/generator/from_proto.rs:286-294 | double/float → Float, the int/fixed/uint kinds → Int, bool → Boolean, string/bytes → String, message → JSON, others pass through |
| FromProto.ConvertUnprefixed | src/core/generator/from_proto.rs:284-294 | a name without the prefix goes to the table exactly as given. Since the table only knows lower-case names, it changes only an already lower-case name, and `DOUBLE` passes through unchanged |
| FromProto.GraphqlTypeFromRef | src/core/generator/from_proto.rs:268-280 | fails exactly when the reference lacks the leading `.`, otherwise splits at the last `.` and rebuilds the reference |
| FromProto.RefRoundTrip | src/core/generator/from_proto.rs:268-280 | splitting the reference of a package and a dot-free name gives them back |
| FromProto.GetOutputType | src/core/generator/from_proto.rs:299-311 | `.google.protobuf.Empty` gives `Empty`, anything else must be a fully-qualified reference |
| FromProto.GetInputType | src/core/generator/from_proto.rs:313-318 | empty or `.google.protobuf.Empty` input gives no argument, anything else must be a fully-qualified reference |
| FromProto.MessageField | src/core/generator/from_proto.rs:163-183 | list iff the label contains "repeated", required iff "required" or list, a JSON scalar forced non-list and nullable, a reference must be fully qualified |
| FromProto.QueryField | src/core/generator/from_proto.rs:212-250 | succeeds iff input and output types are acceptable. The field is required, not a list and carries the method id. With an input it gets one required argument and the `{{.args.<key>}}` body, without one neither. An Empty output has the Empty type |
| FromProto.AddQueryFieldEffect | src/core/generator/from_proto.rs:252-261 | the query type holds the field afterwards, becomes the query root only when created, and nothing else changes |
| FromProto.MethodCalls | src/core/generator/from_proto.rs:209-211 | the methods of a service in order, each with the service name |
| FromProto.CallsSnoc | src/core/generator/from_proto.rs:209-211 | the calls of one more service extend the calls by its methods |
| FromProto.CallsPrefix | src/core/generator/from_proto.rs:209-211 | the calls of the first k services are a prefix of all calls |
| FromProto.AppendQueryRegistersAll | src/core/generator/from_proto.rs:204-265 | on success the query type exists, holds a field for every method, and is the query root unless it was already defined |
| FromProto.AppendQueryRoot | src/core/generator/from_proto.rs:252-259 | the query type exists and the root changes only on creation |
| FromProto.AppendQueryFields | src/core/generator/from_proto.rs:209-263 | every method's field is in the query type |
| FromProto.AddQueryFieldGrows | src/core/generator/from_proto.rs:252-261 | registering a field keeps the fields already there |
| FromProto.Context.constructor | src/core/generator/from_proto.rs:27-33 | an empty namespace and the default configuration |
| FromProto.Context.InsertType | src/core/generator/from_proto.rs:36-39 | the type is stored under its name and nothing else changes |
| FromProto.Context.InsertOneofs | src/core/generator/from_proto.rs:42-110 | every variant is registered as a type, and the union under the message name has exactly the variant names |
| FromProto.Context.AppendQueryService | src/core/generator/from_proto.rs:204-265 | succeeds iff every method converts, and then the configuration is `AppendQuery` over all calls |
| FromProto.Context.AppendServiceMethods | src/core/generator/from_proto.rs:211-262 | the inner loop over one service agrees with `AppendQuery` over the calls extended by its methods |
| FromProto.AppendQueryMethods | src/core/generator/from_proto.rs:211-262 | adding a service's methods from the front agrees with `AppendQuery` |
| FromProto.AppendQueryErrSticks | src/core/generator/from_proto.rs:220-238 | the first failing method decides the error (`?` returns at once) |
| ConfigModule.FindType | src/config/config_module.rs:129 | the declared type of that name, or none |
| ConfigModule.FieldTypeDeclared | src/config/config_module.rs:130-132 | a field type of a declared type is among its field types |
| ConfigModule.ReachRoot | src/config/config_module.rs:128-137 | a root is reachable |
| ConfigModule.ReachStep | src/config/config_module.rs:128-137 | a field type of a reachable type is reachable |
| ConfigModule.ClosedHoldsReachable | src/config/config_module.rs:128-137 | a closed set containing the roots contains everything reachable from them |
| ConfigModule.RecurseType | src/config/config_module.rs:128-137 | the set only grows, gains every field type of the type, is closed except for pending callers, and gains only reachable names. Recursion happens only on a name just inserted, so it terminates on cycles |
| ConfigModule.AddArgType | src/config/config_module.rs:150-156 | one argument type, its field types and their closure are added, and the result is closed |
| ConfigModule.AddTypeArgTypes | src/config/config_module.rs:144-158 | all non-scalar argument types of a type are added, closed |
| ConfigModule.GetInputTypes | src/config/config_module.rs:139-162 | holds every non-scalar argument type of every non-interface type, is closed, and holds only what those reach |
| ConfigModule.InputTypesLeast | src/config/config_module.rs:139-162 | the input types are contained in every closed set containing the argument types |
| ConfigModule.InsertFieldTypes | src/config/config_module.rs:177-179 | the field loop adds exactly the field types |
| ConfigModule.OutputLoopStep | src/config/config_module.rs:175-181 | one turn of the type loop keeps the loop invariant |
| ConfigModule.OutputStepCovered | src/config/config_module.rs:175-181 | the types collected with one more type come from it or from the earlier ones |
| ConfigModule.OutputStepComplete | src/config/config_module.rs:175-181 | nothing collected earlier and no field type of a counting type is lost |
| ConfigModule.InsertOutputFieldTypes | src/config/config_module.rs:175-181 | the type loop yields the roots plus the field types of every counting type |
| ConfigModule.GetOutputTypes | src/config/config_module.rs:164-184 | the result is `OutputTypes` |
| ConfigModule.OutputTypesMembers | src/config/config_module.rs:164-184 | x is an output type iff it is the query or mutation root, or a field type of a non-input type that is an interface or has fields |
| ConfigModule.OutputGuardRedundant | src/config/config_module.rs:176 | the interface-or-has-fields guard changes nothing |
| ConfigModule.MergeDescriptorSets | src/config/config_module.rs:84-90 | the files of the left set, then those of the right |
| ConfigModule.MergeDescriptorOption | src/config/config_module.rs:94-96 | None+None is None, a single Some survives on either side, and two sets are concatenated left then right |
| ConfigModule.MergeRight | src/config/config_module.rs:92-109 | keys taken from the right only when it has some, descriptor sets merged, the vectors concatenated left then right |
| ConfigModule.HasAuth | src/config/config_module.rs:79-81 | true iff htpasswd or jwks is non-empty |
| ConfigModule.AddProto | src/config/config_module.rs:65-73 | extends the existing descriptor set or installs the new one, and changes nothing else |
| ConfigModule.AddProtoIsMerge | src/config/config_module.rs:65-96 | `add_proto` is a merge with extensions holding only that set |
| ConfigModule.MergeDefault | src/config/config_module.rs:92-109 | the default extensions are neutral on both sides |
| ConfigModule.MergeAssociative | src/config/config_module.rs:92-109 | the merge is associative on descriptor sets, keys, certificates and auth data |
| ConfigModule.MergeHasAuth | src/config/config_module.rs:79-109 | a merge has authentication iff a side has it |
| ConfigModule.FromConfig | src/config/config_module.rs:186-193 | closed input types holding the argument types, output types computed against them, default extensions |
| PostSchema.NameOf | tailcall-serde-schema/src/post.rs:45-50 | the key of a known field is recognised as that field |
| PostSchema.FieldOf | tailcall-serde-schema/src/post.rs:41-52 | exactly the four keys `user_id`, `id`, `title` and `body` name a field; every other key is unknown |
| PostSchema.FieldNames | tailcall-serde-schema/src/post.rs:45-51 | "user_id", "id", "title", "body" name their fields, and any other key is Unknown |
| PostSchema.U64Of | tailcall-serde-schema/src/post.rs:91-97 | a number in the u64 range is accepted as is, and anything else is refused |
| PostSchema.StringOf | tailcall-serde-schema/src/post.rs:103-109 | a string is accepted as is, and anything else is refused |
| PostSchema.VisitMap | tailcall-serde-schema/src/post.rs:76-123 | the `while let` loop with its early returns computes `Deserialize` |
| PostSchema.ScanOk | tailcall-serde-schema/src/post.rs:85-115 | the loop succeeds iff each known key comes at most once into an empty slot with the right type, and the slots then hold those values |
| PostSchema.ScanAppend | tailcall-serde-schema/src/post.rs:85-115 | the loop over a + b is the loop over a, then over b |
| PostSchema.Deserialize | tailcall-serde-schema/src/post.rs:85-122 | a Post results iff each known key appears exactly once with the right type, whatever the order, and it holds those values |
| PostSchema.DuplicateFails | tailcall-serde-schema/src/post.rs:87-110 | a second occurrence of a known key fails with `duplicate_field(key)` where it is seen, before any missing-field check |
| PostSchema.ErrorSticks | tailcall-serde-schema/src/post.rs:85-115 | the first error in the stream is the result |
| PostSchema.UnknownSkipped | tailcall-serde-schema/src/post.rs:111-113 | an entry with an unknown key does not affect the result |
| PostSchema.MissingInOrder | tailcall-serde-schema/src/post.rs:117-120 | absent fields fail with `missing_field`, checked in the order user_id, id, title, body |
| IntoSchema.ToTypeRef | src/blueprint/into_schema.rs:13-31 | non-null exactly when the type is, never `NonNull` directly inside `NonNull`, list depth and innermost name preserved |
| IntoSchema.ToTypeRefRoundTrip | src/blueprint/into_schema.rs:13-31 | reading the reference back gives the blueprint type, so named and list types map as the four branches say |
| IntoSchema.ToTypeRefInjective | src/blueprint/into_schema.rs:13-31 | different blueprint types give different references |
| IntoSchema.FromTypeRefRoundTrip | src/blueprint/into_schema.rs:13-31 | every reference without a doubled `NonNull` is produced by some blueprint type |
| ServerBlueprint.Fuse | src/core/blueprint/server.rs:109-118 | a fused check succeeds iff both sides do |
| ServerBlueprint.Within | src/core/blueprint/server.rs:173-176 | tracing keeps success, and prefixes every cause with the path, outermost segment first |
| ServerBlueprint.FromIterOk | src/core/blueprint/server.rs:194-235 | every element must pass, and the values are theirs in order |
| ServerBlueprint.FromIterCauses | src/core/blueprint/server.rs:194-235 | every cause of every failing element is reported |
| ServerBlueprint.HttpSetting | src/core/blueprint/server.rs:89-107 | HTTP/2 fails without certificates, then without a key, and otherwise carries all certificates and the first key. Any other version is HTTP1 |
| ServerBlueprint.ValidateHostname | src/core/blueprint/server.rs:179-192 | "localhost" is 127.0.0.1 without parsing, anything else must parse, and failure is traced under schema/@server/hostname |
| ServerBlueprint.HandleResponseHeaders | src/core/blueprint/server.rs:194-215 | passes iff every name and value parses, and keeps the headers in order |
| ServerBlueprint.HandleExperimentalHeaders | src/core/blueprint/server.rs:217-235 | passes iff each header starts with `x-` in any case and parses, and the set then holds their names |
| ServerBlueprint.CheckedHeaderNames | src/core/blueprint/server.rs:221-233 | the collected header checks pass iff each header does, and then the names are the parsed names |
| ServerBlueprint.ExperimentalHeaderNeedsPrefix | src/core/blueprint/server.rs:220-223 | a header without the prefix is reported as `ExperimentalHeaderInvalidFormat(header)` under the experimental path |
| ServerBlueprint.ToScript | src/core/blueprint/server.rs:152-169 | no script without a script extension, otherwise its source with the configured timeout in milliseconds, or none |
| ServerBlueprint.ValidateCors | src/core/blueprint/server.rs:171-177 | absent CORS settings pass, and present ones must convert |
| ServerBlueprint.Http2NeedsCertificateThenKey | src/core/blueprint/server.rs:90-104 | HTTP/2 without certificates, or with certificates but no key, fails with that error alone |
| ServerBlueprint.AllChecksMustSucceed | src/core/blueprint/server.rs:109-148 | a server is built iff all fused checks succeed, and it carries their values. Otherwise all causes are reported in check order |
| ServerBlueprint.TryFrom | src/core/blueprint/server.rs:86-107 | the HTTP check runs first, and its failure is returned alone. A built server carries the HTTP setting that check produced |
| ServerBlueprint.LocalhostInAnyCase | src/core/blueprint/server.rs:109 | the hostname is lower-cased first, so `LOCALHOST` is the loopback address |
| ServerBlueprint.DefaultChecks | src/core/blueprint/server.rs:109-118 | each check passes on the default settings |
| ServerBlueprint.DefaultSucceeds | src/core/blueprint/server.rs:241-245 | the default configuration validates to an HTTP1 server on 127.0.0.1 |
| FromOpenapi.SchemaTypeToString | src/core/generator/from_openapi.rs:13-24 | Integer and Number both give "Int", Boolean "Boolean", String "String" |
| FromOpenapi.SchemaToPrimitiveType | src/core/generator/from_openapi.rs:26-31 | none exactly for Array and Object, otherwise the scalar name |
| FromOpenapi.CanDefineType | src/core/generator/from_openapi.rs:139-145 | a string enum can always be defined |
| FromOpenapi.IntoTuple | src/core/generator/from_openapi.rs:44-58 | `(true, n)` for a list of a name, `(false, n)` for a name, and a panic for a list of lists |
| FromOpenapi.IntoTupleRoundTrip | src/core/generator/from_openapi.rs:52-57 | `into_tuple` is inverse to building a type name from the pair |
| FromOpenapi.Resolve | src/core/generator/from_openapi.rs:93 | an inline schema is itself, and a reference must exist |
| FromOpenapi.LastSegment | src/core/generator/from_openapi.rs:63 | the text after the last `/`, which has no `/` |
| FromOpenapi.NameFromRefPath | src/core/generator/from_openapi.rs:60-67 | a reference is named by its Pascal-cased last segment, and an inline schema has no name |
| FromOpenapi.PrimitiveOf | src/core/generator/from_openapi.rs:109-116 | a scalar name exactly for the four scalar kinds |
| FromOpenapi.SchemaTypeOf | src/core/generator/from_openapi.rs:91-127 | a list exactly when `items` is set, and a queued schema is definable and gets the inline name |
| FromOpenapi.SchemaTypePrecedence | src/core/generator/from_openapi.rs:106-126 | without `items`: string enum → inline, then primitive, then additionalProperties → JSON, then the given name, then definable → inline, else JSON |
| FromOpenapi.SchemaTypeListOfList | src/core/generator/from_openapi.rs:92-105 | `into_tuple` panics exactly when `items` is an inline array schema that is neither a string enum nor a scalar |
| FromOpenapi.AllOfProperties | src/core/generator/from_openapi.rs:147-161 | the own properties come last and the own required names are included. The whole result is `AllOfPropertiesOrder` |
| FromOpenapi.AllOfNoMembers | src/core/generator/from_openapi.rs:153-160 | without `allOf` members only the own properties and required names |
| FromOpenapi.AllOfInlineMember | src/core/generator/from_openapi.rs:154-158 | an inline member contributes all its properties and required names |
| FromOpenapi.AllOfRefMember | src/core/generator/from_openapi.rs:154-158 | a `$ref` member is resolved, and all the properties and required names of the referenced schema are in the result |
| FromOpenapi.AllOfUnresolvedRef | src/core/generator/from_openapi.rs:155 | a `$ref` member that names no schema panics |
| FromOpenapi.AllOfContributions | src/core/generator/from_openapi.rs:154-158 | one contribution per member, in member order |
| FromOpenapi.AllOfMembersFlatten | src/core/generator/from_openapi.rs:153-159 | the member loop's accumulation is the members' contributions laid end to end |
| FromOpenapi.AllOfPropertiesOrder | src/core/generator/from_openapi.rs:147-161 | the result is every member's properties in member order, then the own properties; the required names are the schema's and every member's; the first member that panics decides the panic |
| FromOpenapi.AllOfTerminates | src/core/generator/from_openapi.rs:147-161 | on a document whose `allOf` references are acyclic and resolve, ranked below the fuel, the accumulation never panics |
| FromOpenapi.PropertyField | src/core/generator/from_openapi.rs:168-183 | a field is required as asked and has no args or resolver, and a schema it queues is definable |
| FromOpenapi.FieldAt | src/core/generator/from_openapi.rs:164-216 | the field builders of both branches obey that |
| FromOpenapi.PropertyFieldsSound | src/core/generator/from_openapi.rs:164-191 | the fields are named exactly by the properties, required iff in `required`, and every queued schema is definable |
| FromOpenapi.PropertyFieldsErrSticks | src/core/generator/from_openapi.rs:164-216 | a panic on a prefix of the properties is the panic of the whole |
| FromOpenapi.MemberName | src/core/generator/from_openapi.rs:224-231 | a member is named by its reference, else its scalar name, else the inline name, and is queued in every case |
| FromOpenapi.UnionMembers | src/core/generator/from_openapi.rs:219-233 | one schema is queued per member |
| FromOpenapi.UnionMembersNamesRefs | src/core/generator/from_openapi.rs:224-231 | every referenced member is among the union's types under its Pascal-cased name |
| FromOpenapi.UnionMembersErrSticks | src/core/generator/from_openapi.rs:228-231 | a panic on a prefix of the members is the panic of the whole |
| FromOpenapi.EnumVariants | src/core/generator/from_openapi.rs:236-245 | succeeds iff every value is a string, with exactly those strings, and otherwise is the `unreachable!` panic |
| FromOpenapi.DefineTypeOf | src/core/generator/from_openapi.rs:163-249 | defines something iff `can_define_type`. Properties give a type with exactly those fields and the right `required`. `allOf` gives the accumulated fields. anyOf/oneOf give a union queuing one schema per member. Nothing is queued when nothing is defined |
| FromOpenapi.PropertyQueueDefinable | src/core/generator/from_openapi.rs:164-218 | the schemas the property branches queue are definable |
| FromOpenapi.WordRunEnd | src/core/generator/from_openapi.rs:353 | the end of the run of `\w` characters |
| FromOpenapi.WordRunEndAt | src/core/generator/from_openapi.rs:353 | the run ends at the first non-word character |
| FromOpenapi.TemplateEnd | src/core/generator/from_openapi.rs:353 | a match of `\{\w+\}` at the start ends at its `}` |
| FromOpenapi.Rewrite | src/core/generator/from_openapi.rs:353-360 | every recorded URL parameter is a non-empty word, and a path without `{` is unchanged with none |
| FromOpenapi.RewriteSkip | src/core/generator/from_openapi.rs:354-359 | text not starting a match is copied |
| FromOpenapi.RewriteLeading | src/core/generator/from_openapi.rs:355-358 | a leading `{name}` becomes `{{args.name}}`, and `name` is recorded |
| FromOpenapi.RewritePrefixStep | src/core/generator/from_openapi.rs:354-359 | one brace-free character before known text is copied |
| FromOpenapi.RewritePrefix | src/core/generator/from_openapi.rs:354-359 | brace-free text is copied unchanged |
| FromOpenapi.RewriteSegment | src/core/generator/from_openapi.rs:351-361 | a `{name}` segment after brace-free text becomes `{{args.name}}` and `name` a URL parameter |
| FromOpenapi.QueryParams | src/core/generator/from_openapi.rs:363-370 | exactly the arguments that are not URL parameters become `key → {{args.key}}` |
| FromOpenapi.PathAndQuery | src/core/generator/from_openapi.rs:351-370 | without arguments the path is kept. No argument is both a URL and a query parameter, and every argument is one of them |
| FromOpenapi.InstallKeeps | src/core/generator/from_openapi.rs:390-399 | storing one definition keeps those under other names |
| FromOpenapi.InlineNameInjective | src/core/generator/from_openapi.rs:130 | different indices give different `Type<n>` names |
| FromOpenapi.InlineName | src/core/generator/from_openapi.rs:130 | the name is `Type` followed by the decimal digits that read back as n |
| FromOpenapi.DefineAllAsWritten | src/core/generator/from_openapi.rs:251-269 | `define_types` as written: the counter advances only for schemas that defined something |
| FromOpenapi.DefineAllByPosition | src/core/generator/from_openapi.rs:251-269 | the corrected numbering: the schema queued at position k is stored as `Type<k>` |
| FromOpenapi.AsWrittenIndex | src/core/generator/from_openapi.rs:251-269 | as written, the final counter is the number of schemas that defined something |
| FromOpenapi.CountDefinedMono | src/core/generator/from_openapi.rs:251-269 | a defining schema counts before every later one |
| FromOpenapi.InstallOtherIndex | src/core/generator/from_openapi.rs:255-264 | a definition under `Type<m>` survives storing one under `Type<n>`, n ≠ m |
| FromOpenapi.AsWrittenInstalls | src/core/generator/from_openapi.rs:251-269 | as written, the k-th schema is stored under `Type<c>`, where c counts the defining schemas before it |
| FromOpenapi.ByPositionInstalls | src/core/generator/from_openapi.rs:251-269 | by position, the k-th schema is stored under `Type<k>`, the name it was handed |
| FromOpenapi.ByPositionAgrees | src/core/generator/from_openapi.rs:251-269 | when every queued schema defines something, both numberings agree |
| FromOpenapi.ComponentInstalled | src/core/generator/from_openapi.rs:387-402 | a component that defines something is stored under its Pascal-cased name unless a later one has the same name |
| FromOpenapi.PropertyFieldsSnoc | src/core/generator/from_openapi.rs:165-185 | one built field extends the fold |
| FromOpenapi.PropertyFieldsSnocErr | src/core/generator/from_openapi.rs:169 | a field that panics makes the fold panic |
| FromOpenapi.UnionMembersStep | src/core/generator/from_openapi.rs:220-233 | one more member extends the fold |
| FromOpenapi.ByPositionSnoc | src/core/generator/from_openapi.rs:253-268 | one more schema extends the numbering by position |
| FromOpenapi.ByPositionErrSticks | src/core/generator/from_openapi.rs:253-268 | a panic on a prefix is the panic of the whole queue |
| FromOpenapi.ComponentsSnoc | src/core/generator/from_openapi.rs:387-402 | one more component extends the fold |
| FromOpenapi.ComponentsErrSticks | src/core/generator/from_openapi.rs:389-390 | a panic on a prefix of the components is the panic of the whole |
| FromOpenapi.UnionSchemaQueuesBoth | src/core/generator/from_openapi.rs:219-235 | the union `{oneOf: [string, object]}` names its members `String` and `Type1` and queues both |
| FromOpenapi.StringSchemaDefinesNothing | src/core/generator/from_openapi.rs:246-248 | `{type: string}` defines nothing |
| FromOpenapi.ObjectSchemaDefinesType | src/core/generator/from_openapi.rs:164-191 | the object schema defines a type with one field `a: String` |
| FromOpenapi.UnionComponentQueuesBoth | src/core/generator/from_openapi.rs:387-402 | the component `U` is stored as the union of `String` and `Type1` |
| FromOpenapi.AsWrittenStoresType0 | src/core/generator/from_openapi.rs:251-269 | as written, the object member queued second is stored as `Type0` |
| FromOpenapi.ByPositionStoresType1 | src/core/generator/from_openapi.rs:251-269 | numbered by position, it is stored as `Type1` |
| FromOpenapi.DanglingInlineName | src/core/generator/from_openapi.rs:231-269 | as written, the union refers to `Type1` but nothing is stored as `Type1`, while numbering by position stores it |
| FromOpenapi.Converter.constructor | src/core/generator/from_openapi.rs:82-89 | empty queues, not frozen, no definitions |
| FromOpenapi.Converter.InsertInlineType | src/core/generator/from_openapi.rs:129-137 | the name is `Type<len>` with len taken before the push. The schema goes to the other queue while frozen and to the main queue otherwise |
| FromOpenapi.Converter.GetSchemaType | src/core/generator/from_openapi.rs:91-127 | the method computes `SchemaTypeOf`, and queues what it says |
| FromOpenapi.Converter.BuildField | src/core/generator/from_openapi.rs:168-183 | one property as `FieldAt` builds it |
| FromOpenapi.Converter.PropertyFieldsNext | src/core/generator/from_openapi.rs:165-185 | one turn of the field loop extends the fold |
| FromOpenapi.Converter.BuildFields | src/core/generator/from_openapi.rs:164-216 | the field loop computes `PropertyFields` and queues its schemas |
| FromOpenapi.Converter.UnionMemberName | src/core/generator/from_openapi.rs:224-231 | one member as `MemberName` names it, always queued |
| FromOpenapi.Converter.UnionMembersNext | src/core/generator/from_openapi.rs:220-233 | one turn of the member loop extends the fold |
| FromOpenapi.Converter.BuildUnionMembers | src/core/generator/from_openapi.rs:219-233 | the member loop computes `UnionMembers` and queues every member |
| FromOpenapi.Converter.DefineType | src/core/generator/from_openapi.rs:163-249 | the method computes `DefineTypeOf` and queues its schemas |
| FromOpenapi.Converter.Store | src/core/generator/from_openapi.rs:255-264 | stores the definition in the map of its kind, and the queues are unchanged |
| FromOpenapi.Converter.DefineTypes | src/core/generator/from_openapi.rs:251-269 | the `while pop_front` loop computes `DefineAllByPosition` (corrected numbering) |
| FromOpenapi.Converter.DefineInlineTypes | src/core/generator/from_openapi.rs:271-279 | takes the queue, defines it frozen from index 0, then unfreezes. The queue is numbered by position (`DefineAllByPosition`), the corrected numbering of Findings |
| FromOpenapi.Converter.DefineComponents | src/core/generator/from_openapi.rs:387-402 | the component loop computes `DefineComponentsOf` |

## Left out

- **expander.rs**
  - `Expander::expand`: it round-trips a `DynamicValue` through serde_json text. Only `expand_inner` on a JSON datatype is modelled.
- **model.rs**
  - `IrModel.Modify`: the modifier is a pure function from a node to an optional replacement. The source's `FnMut` closure could carry state from node to node. The model does not capture such state, nor the order of the visit, including the `HashMap` iteration order of an `Entity`. The closure of `Cache::wrap` keeps no state, so `Wrap` is not affected.
  - `IO::cache_key` (src/core/ir/model.rs:223-232) and the `Display` derives: they depend on request templates, which are not part of this model.
  - `DataLoaderId`, `IoId`: trivial wrappers.
  - Request templates, filters, auth, discriminators and dynamic values: opaque payloads that are only copied.
- **from_proto.rs**
  - `append_enums`, the message loop of `append_msg_type` (map-entry skip, namespace push/pop, tagging) and `from_proto`'s file loop with `unused_types`/`remove_types`: only the label rules (`MessageField`) and the oneof/union insertion are modelled. The GraphQL naming module is not part of this model, and a `Naming` parameter supplies it.
  - `FromProto.Context.AppendQueryService`: on failure the new configuration is left unspecified, because the source discards the whole context on `?`.
- **config_module.rs**
  - `ConfigModule::merge_right` (src/config/config_module.rs:111-119): `Config::merge_right` and the `HashSet` merge are not part of this model.
  - `ConfigModule.MergeRight`: the `Option<String>` script merge is a parameter, because its `MergeRight` impl is not part of this model.
  - `ConfigModule.MergeRight`: the `MergeRight` impls for `Vec` and for the endpoint set are not part of this model either. The model assumes they concatenate, left then right. `MergeAssociative`, `MergeDefault`, `MergeHasAuth` and `AddProtoIsMerge` rest on that assumption.
  - TLS, JWK and endpoint payloads are opaque values.
- **from_openapi.rs**
  - `create_types`' operation loop is modelled only for its path and query construction. The argument building, output type and operation naming are left out.
  - `convert` and `new`: document parsing and the final `Config` assembly are library work.
  - `inline_types_other` is only ever appended to and never defined, as in the source.
  - While frozen, nested inline schemas are named from the emptied main queue (`Type0`, …), as in the source. Their names are not proved to be fresh.
  - `FromOpenapi.AllOfProperties`: a `fuel` bound stands for the unbounded recursion over `$ref` cycles, which is an `AllOfCycle` panic in the model. `AllOfTerminates` shows that on an acyclic document whose references are ranked below the fuel, the fuel never runs out.
  - `FromOpenapi.Converter.DefineTypes`: uses the corrected numbering. The numbering as written is `DefineAllAsWritten` (see Findings).
  - `FromOpenapi.Converter.DefineInlineTypes`: runs `DefineTypes`, so it too uses the corrected numbering, not the one of from_openapi.rs:251-269 as written.
  - Panics (`unwrap`, `unreachable!`) are modelled as `Err` results.
  - Pascal casing is a parameter, and `\w` is restricted to ASCII word characters.
- **post.rs**
  - Stream errors from `next_key`/`next_value` other than a value of the wrong type are not modelled.
  - The error payloads (`InvalidType` text) are stand-ins.
- **server.rs**
  - Parsers and CORS conversion: IP-address parsing, header-name and header-value parsing and the CORS conversion are parameters.
  - `HeaderMap` is modelled as a sequence of pairs.
  - The passthrough settings (port, workers, flags, vars, routes, timeouts) are copied by the source and not modelled.
  - The default hostname of `config::Server` is taken to be "127.0.0.1", because the config module is not part of this model.
  - `ServerBlueprint.Within`: `Valid`'s `trace` comes from a crate that is not part of this model. Its cause layout (accumulate left then right, trace prepends a segment) is an assumption of the model.
- **Cross-cutting**
  - Lower-casing is ASCII only. Rust's `to_lowercase` also folds non-ASCII letters.
  - Not modelled: `src/cli/llm/infer_field_name.rs` (LLM I/O), `benches/dedupe_bench.rs` (concurrency), the test harnesses, and `to_type`/`create` in into_schema.rs (async-graphql builders).

## Findings

| source | as written | input that shows it | evidently intended | confidence | as-written member | corrected member |
|---|---|---|---|---|---|---|
| src/core/generator/from_openapi.rs:231-269 | The eager `unwrap_or(self.insert_inline_type(..))` queues every union member, even one named by a reference or a scalar. `define_types` then advances the `Type<n>` counter only when a queued schema defines something. | component `U: {oneOf: [{type: string}, {type: object, properties: {a: {type: string}}}]}`: the union names the object `Type1`, but it is stored as `Type0` and nothing is stored as `Type1` | each queued schema is stored under the `Type<n>` name `insert_inline_type` handed out for it | not executed | FromOpenapi.DanglingInlineName | FromOpenapi.ByPositionStoresType1 |
