/**
 * The conversion of blueprint types into the type references of the
 * dynamic GraphQL schema (`to_type_ref` in src/blueprint/into_schema.rs).
 *
 * A blueprint type is a named type or a list, each carrying its own
 * `non_null` flag; a type reference spells non-nullness as a wrapper, so a
 * non-null type becomes `NonNull` around the reference of the same type
 * without the flag.
 */
module IntoSchema {
  import opened Wrappers

  /** `blueprint::Type`. */
  datatype BlueprintType =
    | NamedType(name: string, nonNull: bool)
    | ListType(ofType: BlueprintType, nonNull: bool)

  /** `dynamic::TypeRef`. */
  datatype TypeRef = Named(name: string) | List(inner: TypeRef) | NonNull(inner: TypeRef)

  /** No `NonNull` sits directly inside a `NonNull`, anywhere in the reference. */
  predicate SingleNonNull(r: TypeRef)
  {
    match r
    case Named(_) => true
    case List(inner) => SingleNonNull(inner)
    case NonNull(inner) => !inner.NonNull? && SingleNonNull(inner)
  }

  /** How many lists are nested in a blueprint type. */
  function ListDepth(t: BlueprintType): nat
  {
    match t
    case NamedType(_, _) => 0
    case ListType(of, _) => 1 + ListDepth(of)
  }

  /** The named type at the bottom of the lists. */
  function InnermostName(t: BlueprintType): string
  {
    match t
    case NamedType(name, _) => name
    case ListType(of, _) => InnermostName(of)
  }

  function RefListDepth(r: TypeRef): nat
  {
    match r
    case Named(_) => 0
    case List(inner) => 1 + RefListDepth(inner)
    case NonNull(inner) => RefListDepth(inner)
  }

  function RefInnermostName(r: TypeRef): string
  {
    match r
    case Named(name) => name
    case List(inner) => RefInnermostName(inner)
    case NonNull(inner) => RefInnermostName(inner)
  }

  /**
   * `to_type_ref`: the result is non-null exactly when the type is, never
   * nests `NonNull` in `NonNull`, and keeps the list nesting and the
   * innermost name.
   */
  function ToTypeRef(t: BlueprintType): (r: TypeRef)
    ensures r.NonNull? <==> t.nonNull
    ensures SingleNonNull(r)
    ensures RefListDepth(r) == ListDepth(t)
    ensures RefInnermostName(r) == InnermostName(t)
  {
    match t
    case NamedType(name, nonNull) =>
      if nonNull then NonNull(Named(name)) else Named(name)
    case ListType(of, nonNull) =>
      var inner := ToTypeRef(of);
      if nonNull then NonNull(List(inner)) else List(inner)
  }

  /** Reads a type reference back as a blueprint type; a doubled `NonNull` has none. */
  function FromTypeRef(r: TypeRef): Option<BlueprintType>
  {
    match r
    case Named(name) => Some(NamedType(name, false))
    case List(inner) =>
      (match FromTypeRef(inner)
       case None => None
       case Some(of) => Some(ListType(of, false)))
    case NonNull(Named(name)) => Some(NamedType(name, true))
    case NonNull(List(inner)) =>
      (match FromTypeRef(inner)
       case None => None
       case Some(of) => Some(ListType(of, true)))
    case NonNull(NonNull(_)) => None
  }

  /** Reading the reference back gives the blueprint type again. */
  lemma {:induction false} ToTypeRefRoundTrip(t: BlueprintType)
    ensures FromTypeRef(ToTypeRef(t)) == Some(t)
  {
    match t
    case NamedType(_, _) =>
    case ListType(of, _) =>
      ToTypeRefRoundTrip(of);
  }

  /** Different blueprint types have different references. */
  lemma ToTypeRefInjective(s: BlueprintType, t: BlueprintType)
    requires ToTypeRef(s) == ToTypeRef(t)
    ensures s == t
  {
    ToTypeRefRoundTrip(s);
    ToTypeRefRoundTrip(t);
  }

  /** Every reference without a doubled `NonNull` is the reference of some blueprint type. */
  lemma {:induction false} FromTypeRefRoundTrip(r: TypeRef)
    requires SingleNonNull(r)
    ensures FromTypeRef(r).Some? && ToTypeRef(FromTypeRef(r).value) == r
  {
    match r
    case Named(_) =>
    case List(inner) =>
      FromTypeRefRoundTrip(inner);
    case NonNull(Named(_)) =>
    case NonNull(List(inner)) =>
      FromTypeRefRoundTrip(inner);
  }
}
