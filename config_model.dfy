/**
 * The parts of the runtime configuration (`crate::core::config`) that the
 * generators build and the config module analyses. Only the fields these
 * components read or write are kept; the others are always their defaults
 * here.
 */
module ConfigModel {
  import opened Wrappers

  /** An argument of a field. Its `modify` and `default_value` are never set by the generators. */
  datatype Arg = Arg(typeOf: string, list: bool, required: bool, doc: Option<string>)

  datatype KeyValue = KeyValue(key: string, value: string)

  datatype Grpc = Grpc(baseUrl: Option<string>, body: Option<string>, groupBy: seq<string>,
                       headers: seq<KeyValue>, grpcMethod: string)

  datatype HttpMethod = GET | HEAD | OPTIONS | TRACE | PUT | POST | DELETE | PATCH

  datatype Http = Http(path: string, httpMethod: HttpMethod, query: seq<KeyValue>)

  datatype Field = Field(typeOf: string, list: bool, required: bool, args: map<string, Arg>,
                         doc: Option<string>, http: Option<Http>, grpc: Option<Grpc>)

  /** `Field::default()`. */
  const DefaultField: Field := Field("", false, false, map[], None, None, None)

  datatype Tag = Tag(id: string)

  datatype Type = Type(fields: map<string, Field>, interface: bool, tag: Option<Tag>, doc: Option<string>)

  /** `Type::default()`. */
  const DefaultType: Type := Type(map[], false, None, None)

  datatype Union = Union(types: set<string>, doc: Option<string>)

  datatype Enum = Enum(variants: set<string>, doc: Option<string>)

  datatype RootSchema = RootSchema(query: Option<string>, mutation: Option<string>)

  datatype Config = Config(schema: RootSchema, types: map<string, Type>,
                           unions: map<string, Union>, enums: map<string, Enum>)

  /** `Config::default()`. */
  const DefaultConfig: Config := Config(RootSchema(None, None), map[], map[], map[])
}
