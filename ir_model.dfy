/**
 * The resolver expression tree of the runtime (src/core/ir/model.rs): the
 * `IR` datatype, its generic top-down rewrite `modify`, the cache wrapper
 * built on it, and the two classifiers of an `IO` node.
 *
 * Request templates, data-loader ids, filters, auth rules, discriminators
 * and dynamic values are payloads the rewrite never looks into; they are
 * modelled by small stand-in datatypes that are only ever copied.
 */
module IrModel {
  import opened Wrappers

  datatype DynamicValue = DynamicValue(repr: string)
  datatype Auth = Auth(repr: string)
  datatype Discriminator = Discriminator(repr: string)
  datatype RequestTemplate = RequestTemplate(repr: string)
  datatype GroupBy = GroupBy(path: seq<string>, key: Option<string>)

  /** Rust's `NonZeroU64`. */
  type NonZeroU64 = n: int | 0 < n < 0x1_0000_0000_0000_0000 witness 1

  /** A call to the outside world. */
  datatype IO =
    | Http(req: RequestTemplate, groupBy: Option<GroupBy>, dlId: Option<nat>,
           httpFilter: Option<string>, isList: bool, dedupe: bool, isDependent: bool)
    | GraphQL(req: RequestTemplate, fieldName: string, batch: bool, dlId: Option<nat>,
              dedupe: bool, isDependent: bool)
    | Grpc(req: RequestTemplate, groupBy: Option<GroupBy>, dlId: Option<nat>, dedupe: bool)
    | Js(name: string)

  /**
   * The resolver expression. The source's `Cache` and `Map` structs are
   * written inline as the fields of their constructors.
   */
  datatype IR =
    | Dynamic(value: DynamicValue)
    | Io(io: IO)
    | Cache(maxAge: NonZeroU64, cachedIo: IO)
    | Path(inner: IR, path: seq<string>)
    | ContextPath(path: seq<string>)
    | Protect(auth: Auth, inner: IR)
    | Map(input: IR, mapping: map<string, string>)
    | Pipe(first: IR, second: IR)
    | Discriminate(discriminator: Discriminator, inner: IR)
    | Entity(entities: map<string, IR>)
    | Service(sdl: string)
    | Deferred(id: nat, deferLabel: Option<string>, inner: IR, path: seq<string>)

  /** `IO::is_dependent`. */
  function IsDependent(io: IO): (r: bool)
    ensures io.Grpc? ==> r
    ensures io.Js? ==> !r
    ensures io.Http? || io.GraphQL? ==> r == io.isDependent
  {
    match io
    case Http(_, _, _, _, _, _, isDependent) => isDependent
    case GraphQL(_, _, _, _, _, isDependent) => isDependent
    case Grpc(_, _, _, _) => true
    case Js(_) => false
  }

  /** `IO::dedupe`. */
  function Dedupe(io: IO): (r: bool)
    ensures io.Js? ==> !r
    ensures !io.Js? ==> r == io.dedupe
  {
    match io
    case Http(_, _, _, _, _, dedupe, _) => dedupe
    case GraphQL(_, _, _, _, dedupe, _) => dedupe
    case Grpc(_, _, _, dedupe) => dedupe
    case Js(_) => false
  }

  /** `IR::pipe`: run `first`, then feed its result to `next`. */
  function PipeTo(first: IR, next: IR): (r: IR)
    ensures r.Pipe? && r.first == first && r.second == next
  {
    Pipe(first, next)
  }

  /**
   * What `modify_inner` produces for a bare `IO` node: the modifier's answer,
   * or the node itself when it declines.
   */
  function ModifyIo(io: IO, f: IR -> Option<IR>): IR
  {
    match f(Io(io))
    case Some(x) => x
    case None => Io(io)
  }

  /** The rebuilt node keeps every payload of `e` that is not itself an `IR`. */
  predicate KeepsPayload(e: IR, r: IR)
  {
    match e
    case Path(_, path) => r.Path? && r.path == path
    case Protect(auth, _) => r.Protect? && r.auth == auth
    case Map(_, mapping) => r.Map? && r.mapping == mapping
    case Discriminate(d, _) => r.Discriminate? && r.discriminator == d
    case Deferred(id, lbl, _, path) => r.Deferred? && r.id == id && r.deferLabel == lbl && r.path == path
    case Pipe(_, _) => r.Pipe?
    case Entity(m) => r.Entity? && r.entities.Keys == m.Keys
    case _ => true
  }

  /**
   * `IR::modify`: ask the modifier at every node, top-down. A `Some` answer
   * replaces the node and its children are not visited; on `None` the node is
   * rebuilt from its rewritten children. The cached `IO` of a `Cache` node is
   * offered to the modifier as a bare `IO` node: if it comes back as an `IO`
   * it is re-wrapped with the original `max_age`, otherwise it replaces the
   * whole `Cache` node.
   */
  function Modify(e: IR, f: IR -> Option<IR>): (r: IR)
    ensures f(e).Some? ==> r == f(e).value
    ensures f(e).None? && (e.ContextPath? || e.Dynamic? || e.Io? || e.Service?) ==> r == e
    ensures f(e).None? ==> KeepsPayload(e, r)
    ensures f(e).None? && e.Cache? ==>
              r == (if ModifyIo(e.cachedIo, f).Io? then Cache(e.maxAge, ModifyIo(e.cachedIo, f).io)
                    else ModifyIo(e.cachedIo, f))
    decreases e
  {
    match f(e)
    case Some(x) => x
    case None =>
      match e
      case Pipe(first, second) => Pipe(Modify(first, f), Modify(second, f))
      case ContextPath(_) => e
      case Dynamic(_) => e
      case Io(_) => e
      case Cache(maxAge, io) =>
        var x := ModifyIo(io, f);
        if x.Io? then Cache(maxAge, x.io) else x
      case Path(inner, path) => Path(Modify(inner, f), path)
      case Protect(auth, inner) => Protect(auth, Modify(inner, f))
      case Map(input, mapping) => Map(Modify(input, f), mapping)
      case Discriminate(d, inner) => Discriminate(d, Modify(inner, f))
      case Entity(m) => Entity(map k | k in m :: Modify(m[k], f))
      case Service(_) => e
      case Deferred(id, lbl, inner, path) => Deferred(id, lbl, Modify(inner, f), path)
  }

  /** The bare `IO` case of `Modify` is what `ModifyIo` computes. */
  lemma ModifyIoIsModify(io: IO, f: IR -> Option<IR>)
    ensures Modify(Io(io), f) == ModifyIo(io, f)
  {
  }

  /** A modifier that always declines rebuilds the very same tree. */
  lemma {:induction false} ModifyDecliningIsIdentity(e: IR, f: IR -> Option<IR>)
    requires forall x :: f(x) == None
    ensures Modify(e, f) == e
  {
    match e
    case Pipe(first, second) =>
      ModifyDecliningIsIdentity(first, f);
      ModifyDecliningIsIdentity(second, f);
    case Path(inner, _) => ModifyDecliningIsIdentity(inner, f);
    case Protect(_, inner) => ModifyDecliningIsIdentity(inner, f);
    case Map(input, _) => ModifyDecliningIsIdentity(input, f);
    case Discriminate(_, inner) => ModifyDecliningIsIdentity(inner, f);
    case Deferred(_, _, inner, _) => ModifyDecliningIsIdentity(inner, f);
    case Entity(m) =>
      forall k | k in m ensures Modify(m[k], f) == m[k] {
        ModifyDecliningIsIdentity(m[k], f);
      }
      assert (map k | k in m :: Modify(m[k], f)) == m;
    case _ =>
  }

  // ----- Cache::wrap -----

  /** The modifier `Cache::wrap` passes to `modify`. */
  function WrapModifier(maxAge: NonZeroU64): IR -> Option<IR>
  {
    (x: IR) => if x.Io? then Some(Cache(maxAge, x.io)) else None
  }

  /** `Cache::wrap`: put every `IO` node of `e` behind a cache with the given `max_age`. */
  function Wrap(maxAge: NonZeroU64, e: IR): (r: IR)
    ensures e.Io? ==> r == Cache(maxAge, e.io)
    ensures e.Cache? ==> r == Cache(maxAge, e.cachedIo)
    ensures !e.Io? && !e.Cache? ==> KeepsPayload(e, r)
  {
    assert e.Cache? ==> ModifyIo(e.cachedIo, WrapModifier(maxAge)) == Cache(maxAge, e.cachedIo);
    Modify(e, WrapModifier(maxAge))
  }

  /** `e` with every cache removed: the tree of calls and combinators alone. */
  function Strip(e: IR): IR
  {
    match e
    case Cache(_, io) => Io(io)
    case Pipe(first, second) => Pipe(Strip(first), Strip(second))
    case Path(inner, path) => Path(Strip(inner), path)
    case Protect(auth, inner) => Protect(auth, Strip(inner))
    case Map(input, mapping) => Map(Strip(input), mapping)
    case Discriminate(d, inner) => Discriminate(d, Strip(inner))
    case Entity(m) => Entity(map k | k in m :: Strip(m[k]))
    case Deferred(id, lbl, inner, path) => Deferred(id, lbl, Strip(inner), path)
    case _ => e
  }

  /** Every `IO` of `e` sits behind a cache, and every cache of `e` has the given `max_age`. */
  ghost predicate CachedWith(maxAge: NonZeroU64, e: IR)
  {
    match e
    case Io(_) => false
    case Cache(age, _) => age == maxAge
    case Pipe(first, second) => CachedWith(maxAge, first) && CachedWith(maxAge, second)
    case Path(inner, _) => CachedWith(maxAge, inner)
    case Protect(_, inner) => CachedWith(maxAge, inner)
    case Map(input, _) => CachedWith(maxAge, input)
    case Discriminate(_, inner) => CachedWith(maxAge, inner)
    case Entity(m) => forall k | k in m :: CachedWith(maxAge, m[k])
    case Deferred(_, _, inner, _) => CachedWith(maxAge, inner)
    case _ => true
  }

  /**
   * Wrapping only adds caches: removing them again gives back the input with
   * its own caches removed, and afterwards every `IO` is cached with `maxAge`.
   */
  lemma WrapCachesEveryIo(maxAge: NonZeroU64, e: IR)
    ensures Strip(Wrap(maxAge, e)) == Strip(e)
    ensures CachedWith(maxAge, Wrap(maxAge, e))
  {
    WrapKeepsShape(maxAge, e);
    WrapCachesAll(maxAge, e);
  }

  /** Wrapping changes nothing but the caches. */
  lemma {:induction false} WrapKeepsShape(maxAge: NonZeroU64, e: IR)
    ensures Strip(Wrap(maxAge, e)) == Strip(e)
  {
    var f := WrapModifier(maxAge);
    match e
    case Pipe(first, second) =>
      WrapKeepsShape(maxAge, first);
      WrapKeepsShape(maxAge, second);
    case Path(inner, _) => WrapKeepsShape(maxAge, inner);
    case Protect(_, inner) => WrapKeepsShape(maxAge, inner);
    case Map(input, _) => WrapKeepsShape(maxAge, input);
    case Discriminate(_, inner) => WrapKeepsShape(maxAge, inner);
    case Deferred(_, _, inner, _) => WrapKeepsShape(maxAge, inner);
    case Entity(m) =>
      forall k | k in m ensures Strip(Wrap(maxAge, m[k])) == Strip(m[k]) {
        WrapKeepsShape(maxAge, m[k]);
      }
      WrapEntityShape(maxAge, m);
    case Cache(_, io) =>
      assert ModifyIo(io, f) == Cache(maxAge, io);
    case _ =>
  }

  lemma WrapEntityShape(maxAge: NonZeroU64, m: map<string, IR>)
    requires forall k | k in m :: Strip(Wrap(maxAge, m[k])) == Strip(m[k])
    ensures Strip(Wrap(maxAge, Entity(m))) == Strip(Entity(m))
  {
    var w := map k | k in m :: Wrap(maxAge, m[k]);
    WrapEntity(maxAge, m);
    StripMapsAgree(w, m);
  }

  /** Two entity maps whose values agree once stripped strip to the same entity. */
  lemma StripMapsAgree(w: map<string, IR>, m: map<string, IR>)
    requires w.Keys == m.Keys
    requires forall k | k in m :: Strip(w[k]) == Strip(m[k])
    ensures Strip(Entity(w)) == Strip(Entity(m))
  {
    assert (map k | k in w :: Strip(w[k])) == (map k | k in m :: Strip(m[k]));
  }

  /** Wrapping an entity map wraps each of its values. */
  lemma WrapEntity(maxAge: NonZeroU64, m: map<string, IR>)
    ensures Wrap(maxAge, Entity(m)) == Entity(map k | k in m :: Wrap(maxAge, m[k]))
  {
    var f := WrapModifier(maxAge);
    assert f(Entity(m)) == None;
    assert Modify(Entity(m), f) == Entity(map k | k in m :: Modify(m[k], f));
  }

  /** After wrapping, every call sits behind a cache with `maxAge`. */
  lemma {:induction false} WrapCachesAll(maxAge: NonZeroU64, e: IR)
    ensures CachedWith(maxAge, Wrap(maxAge, e))
  {
    var f := WrapModifier(maxAge);
    match e
    case Pipe(first, second) =>
      WrapCachesAll(maxAge, first);
      WrapCachesAll(maxAge, second);
    case Path(inner, _) => WrapCachesAll(maxAge, inner);
    case Protect(_, inner) => WrapCachesAll(maxAge, inner);
    case Map(input, _) => WrapCachesAll(maxAge, input);
    case Discriminate(_, inner) => WrapCachesAll(maxAge, inner);
    case Deferred(_, _, inner, _) => WrapCachesAll(maxAge, inner);
    case Entity(m) =>
      var w := map k | k in m :: Modify(m[k], f);
      forall k | k in m ensures CachedWith(maxAge, w[k]) {
        WrapCachesAll(maxAge, m[k]);
      }
      assert Wrap(maxAge, e) == Entity(w);
    case Cache(_, io) =>
      assert ModifyIo(io, f) == Cache(maxAge, io);
    case _ =>
  }

  /** An already cached `IO` ends up behind one cache with the new `max_age`, never two. */
  lemma WrapRecachesOnce(maxAge: NonZeroU64, oldAge: NonZeroU64, io: IO)
    ensures Wrap(maxAge, Cache(oldAge, io)) == Cache(maxAge, io)
  {
    assert ModifyIo(io, WrapModifier(maxAge)) == Cache(maxAge, io);
  }

  /** A tree whose calls are all cached with `maxAge` is left alone by wrapping. */
  lemma {:induction false} WrapFixesCached(maxAge: NonZeroU64, e: IR)
    requires CachedWith(maxAge, e)
    ensures Wrap(maxAge, e) == e
  {
    var f := WrapModifier(maxAge);
    match e
    case Pipe(first, second) =>
      WrapFixesCached(maxAge, first);
      WrapFixesCached(maxAge, second);
    case Path(inner, _) => WrapFixesCached(maxAge, inner);
    case Protect(_, inner) => WrapFixesCached(maxAge, inner);
    case Map(input, _) => WrapFixesCached(maxAge, input);
    case Discriminate(_, inner) => WrapFixesCached(maxAge, inner);
    case Deferred(_, _, inner, _) => WrapFixesCached(maxAge, inner);
    case Entity(m) =>
      forall k | k in m ensures Modify(m[k], f) == m[k] {
        WrapFixesCached(maxAge, m[k]);
      }
      assert (map k | k in m :: Modify(m[k], f)) == m;
    case Cache(_, io) =>
      assert ModifyIo(io, f) == Cache(maxAge, io);
    case _ =>
  }

  /** Wrapping twice with the same `max_age` is wrapping once. */
  lemma WrapIdempotent(maxAge: NonZeroU64, e: IR)
    ensures Wrap(maxAge, Wrap(maxAge, e)) == Wrap(maxAge, e)
  {
    WrapCachesEveryIo(maxAge, e);
    WrapFixesCached(maxAge, Wrap(maxAge, e));
  }

  /** Wrapping distributes over a pipe built by `pipe`. */
  lemma WrapPipe(maxAge: NonZeroU64, first: IR, next: IR)
    ensures Wrap(maxAge, PipeTo(first, next)) == PipeTo(Wrap(maxAge, first), Wrap(maxAge, next))
  {
  }
}
