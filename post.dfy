/**
 * The hand-written deserializer of `Post` (tailcall-serde-schema/src/post.rs).
 *
 * A JSON object reaches the visitor as a stream of key/value entries. The
 * visitor fills four slots, one per known field; it fails on the spot when
 * a known key comes a second time or its value has the wrong type, skips
 * unknown keys, and once the stream ends fails on the first missing field
 * in the order `user_id`, `id`, `title`, `body`.
 */
module PostSchema {
  import opened Wrappers

  datatype Post = Post(userId: nat, id: nat, title: string, body: string)

  /** The field identifiers of the visitor. */
  datatype FieldId = UserId | Id | Title | Body | Unknown

  /** `FieldVisitor::visit_str`: a known key names its field, any other key is unknown. */
  function FieldOf(key: string): (f: FieldId)
    ensures f != Unknown <==> key == "user_id" || key == "id" || key == "title" || key == "body"
  {
    if key == "user_id" then UserId
    else if key == "id" then Id
    else if key == "title" then Title
    else if key == "body" then Body
    else Unknown
  }

  /** The key of a known field, as the error messages spell it. */
  function NameOf(f: FieldId): (name: string)
    requires f != Unknown
    ensures FieldOf(name) == f
  {
    match f
    case UserId => "user_id"
    case Id => "id"
    case Title => "title"
    case Body => "body"
  }

  /** A key is known exactly when it is the name of a field. */
  lemma FieldNames(key: string)
    ensures FieldOf(key) != Unknown <==> key in {"user_id", "id", "title", "body"}
    ensures FieldOf(key) != Unknown ==> NameOf(FieldOf(key)) == key
  {
  }

  /** A JSON value as the deserializer sees it; only its kind matters here. */
  datatype Value = Number(n: int) | Text(s: string) | Other

  const U64Bound: int := 0x1_0000_0000_0000_0000

  /** `next_value::<u64>()`: a number in the range of `u64`. */
  function U64Of(v: Value): (r: Option<nat>)
    ensures r.Some? <==> v.Number? && 0 <= v.n < U64Bound
    ensures r.Some? ==> r.value == v.n
  {
    if v.Number? && 0 <= v.n < U64Bound then Some(v.n) else None
  }

  /** `next_value::<String>()`: a string. */
  function StringOf(v: Value): (r: Option<string>)
    ensures r.Some? <==> v.Text?
    ensures r.Some? ==> r.value == v.s
  {
    if v.Text? then Some(v.s) else None
  }

  datatype DeError = DuplicateField(field: string) | MissingField(field: string) | InvalidType(expected: string)

  /** The four `Option` locals of `visit_map`. */
  datatype Partial = Partial(userId: Option<nat>, id: Option<nat>, title: Option<string>, body: Option<string>)

  const Empty: Partial := Partial(None, None, None, None)

  /** The slot of a known field holds a value. */
  predicate Filled(p: Partial, f: FieldId)
  {
    match f
    case UserId => p.userId.Some?
    case Id => p.id.Some?
    case Title => p.title.Some?
    case Body => p.body.Some?
    case Unknown => false
  }

  /** The value has the type the field asks for; an ignored value fits anything. */
  predicate Fits(f: FieldId, v: Value)
  {
    match f
    case UserId => U64Of(v).Some?
    case Id => U64Of(v).Some?
    case Title => StringOf(v).Some?
    case Body => StringOf(v).Some?
    case Unknown => true
  }

  /** One iteration of the loop of `visit_map`. */
  function Step(p: Partial, key: string, v: Value): Result<Partial, DeError>
  {
    match FieldOf(key)
    case UserId =>
      if p.userId.Some? then Err(DuplicateField("user_id"))
      else if U64Of(v).None? then Err(InvalidType("u64"))
      else Ok(p.(userId := U64Of(v)))
    case Id =>
      if p.id.Some? then Err(DuplicateField("id"))
      else if U64Of(v).None? then Err(InvalidType("u64"))
      else Ok(p.(id := U64Of(v)))
    case Title =>
      if p.title.Some? then Err(DuplicateField("title"))
      else if StringOf(v).None? then Err(InvalidType("a string"))
      else Ok(p.(title := StringOf(v)))
    case Body =>
      if p.body.Some? then Err(DuplicateField("body"))
      else if StringOf(v).None? then Err(InvalidType("a string"))
      else Ok(p.(body := StringOf(v)))
    case Unknown => Ok(p)
  }

  /** The loop of `visit_map` over the remaining entries, stopping at the first error. */
  function Scan(p: Partial, entries: seq<(string, Value)>): Result<Partial, DeError>
    decreases |entries|
  {
    if entries == [] then Ok(p)
    else
      match Step(p, entries[0].0, entries[0].1)
      case Err(e) => Err(e)
      case Ok(next) => Scan(next, entries[1..])
  }

  /** After the loop: the first missing field, in declaration order, is the error. */
  function Finish(p: Partial): Result<Post, DeError>
  {
    if p.userId.None? then Err(MissingField("user_id"))
    else if p.id.None? then Err(MissingField("id"))
    else if p.title.None? then Err(MissingField("title"))
    else if p.body.None? then Err(MissingField("body"))
    else Ok(Post(p.userId.value, p.id.value, p.title.value, p.body.value))
  }

  /**
   * What `visit_map` yields for a stream of entries: a post exactly when
   * each known key comes exactly once with a value of the right type,
   * whatever the order of the entries; the post holds those values.
   */
  function Deserialize(entries: seq<(string, Value)>): (r: Result<Post, DeError>)
    ensures r.Ok? <==>
              Count(entries, "user_id") == 1 && U64Of(First(entries, "user_id")).Some?
              && Count(entries, "id") == 1 && U64Of(First(entries, "id")).Some?
              && Count(entries, "title") == 1 && StringOf(First(entries, "title")).Some?
              && Count(entries, "body") == 1 && StringOf(First(entries, "body")).Some?
    ensures r.Ok? ==>
              r.value == Post(First(entries, "user_id").n, First(entries, "id").n,
                              First(entries, "title").s, First(entries, "body").s)
  {
    ScanOk(Empty, entries);
    match Scan(Empty, entries)
    case Err(e) => Err(e)
    case Ok(p) => Finish(p)
  }

  /** `Visitor::visit_map`: a `while let` loop over the entries with early returns. */
  method VisitMap(entries: seq<(string, Value)>) returns (r: Result<Post, DeError>)
    ensures r == Deserialize(entries)
  {
    var userId: Option<nat> := None;
    var id: Option<nat> := None;
    var title: Option<string> := None;
    var body: Option<string> := None;
    var i := 0;
    while i < |entries|
      invariant 0 <= i <= |entries|
      invariant Scan(Empty, entries) == Scan(Partial(userId, id, title, body), entries[i..])
      decreases |entries| - i
    {
      assert entries[i..][1..] == entries[i + 1..];
      var (key, v) := entries[i];
      match FieldOf(key) {
        case UserId =>
          if userId.Some? {
            return Err(DuplicateField("user_id"));
          }
          var n := U64Of(v);
          if n.None? {
            return Err(InvalidType("u64"));
          }
          userId := n;
        case Id =>
          if id.Some? {
            return Err(DuplicateField("id"));
          }
          var n := U64Of(v);
          if n.None? {
            return Err(InvalidType("u64"));
          }
          id := n;
        case Title =>
          if title.Some? {
            return Err(DuplicateField("title"));
          }
          var s := StringOf(v);
          if s.None? {
            return Err(InvalidType("a string"));
          }
          title := s;
        case Body =>
          if body.Some? {
            return Err(DuplicateField("body"));
          }
          var s := StringOf(v);
          if s.None? {
            return Err(InvalidType("a string"));
          }
          body := s;
        case Unknown =>
      }
      i := i + 1;
    }
    assert entries[i..] == [];
    if userId.None? {
      return Err(MissingField("user_id"));
    }
    if id.None? {
      return Err(MissingField("id"));
    }
    if title.None? {
      return Err(MissingField("title"));
    }
    if body.None? {
      return Err(MissingField("body"));
    }
    r := Ok(Post(userId.value, id.value, title.value, body.value));
  }

  // ----- the stream, key by key -----

  /** How many entries carry `key`. */
  function Count(entries: seq<(string, Value)>, key: string): nat
    decreases |entries|
  {
    if entries == [] then 0
    else (if entries[0].0 == key then 1 else 0) + Count(entries[1..], key)
  }

  /** The value of the first entry that carries `key`. */
  function First(entries: seq<(string, Value)>, key: string): Value
    requires Count(entries, key) > 0
    decreases |entries|
  {
    if entries[0].0 == key then entries[0].1 else First(entries[1..], key)
  }

  /**
   * For one known field: its key comes at most once, and if it comes, the
   * slot is still empty and the value has the field's type.
   */
  predicate AdmissibleFor(p: Partial, entries: seq<(string, Value)>, f: FieldId)
    requires f != Unknown
  {
    var c := Count(entries, NameOf(f));
    c <= 1 && (c == 1 ==> !Filled(p, f) && Fits(f, First(entries, NameOf(f))))
  }

  predicate Admissible(p: Partial, entries: seq<(string, Value)>)
  {
    AdmissibleFor(p, entries, UserId) && AdmissibleFor(p, entries, Id)
    && AdmissibleFor(p, entries, Title) && AdmissibleFor(p, entries, Body)
  }

  /** The slots after the entries were stored, when each known key comes at most once. */
  function Fill(p: Partial, entries: seq<(string, Value)>): Partial
  {
    Partial(if Count(entries, "user_id") == 1 then U64Of(First(entries, "user_id")) else p.userId,
            if Count(entries, "id") == 1 then U64Of(First(entries, "id")) else p.id,
            if Count(entries, "title") == 1 then StringOf(First(entries, "title")) else p.title,
            if Count(entries, "body") == 1 then StringOf(First(entries, "body")) else p.body)
  }

  /**
   * The loop gets through the entries exactly when each known key comes
   * at most once, into an empty slot, with a value of the right type; and
   * then each slot holds the value its key came with.
   */
  lemma {:induction false} ScanOk(p: Partial, entries: seq<(string, Value)>)
    ensures Scan(p, entries).Ok? <==> Admissible(p, entries)
    ensures Scan(p, entries).Ok? ==> Scan(p, entries).value == Fill(p, entries)
    decreases |entries|
  {
    if entries != [] {
      var (key, v) := entries[0];
      var rest := entries[1..];
      match Step(p, key, v)
      case Err(e) =>
      case Ok(next) =>
        ScanOk(next, rest);
    }
  }

  /** Running the loop over `a + b` runs it over `a`, then over `b`. */
  lemma {:induction false} ScanAppend(p: Partial, a: seq<(string, Value)>, b: seq<(string, Value)>)
    ensures Scan(p, a + b) == match Scan(p, a) case Err(e) => Err(e) case Ok(q) => Scan(q, b)
    decreases |a|
  {
    if a != [] {
      assert (a + b)[0] == a[0] && (a + b)[1..] == a[1..] + b;
      match Step(p, a[0].0, a[0].1)
      case Err(e) =>
      case Ok(next) =>
        ScanAppend(next, a[1..], b);
    } else {
      assert a + b == b;
    }
  }

  /**
   * A known key met a second time fails with that key's duplicate error
   * the moment it is seen, before any missing field is looked for.
   */
  lemma DuplicateFails(entries: seq<(string, Value)>, j: nat)
    requires j < |entries| && FieldOf(entries[j].0) != Unknown
    requires Count(entries[..j], entries[j].0) > 0
    requires Scan(Empty, entries[..j]).Ok?
    ensures Deserialize(entries) == Err(DuplicateField(entries[j].0))
  {
    assert entries == entries[..j] + entries[j..];
    ScanAppend(Empty, entries[..j], entries[j..]);
    ScanOk(Empty, entries[..j]);
    FieldNames(entries[j].0);
    assert entries[j..][0] == entries[j];
  }

  /** The first error in the stream is the result, whatever follows it. */
  lemma ErrorSticks(entries: seq<(string, Value)>, j: nat)
    requires j <= |entries| && Scan(Empty, entries[..j]).Err?
    ensures Deserialize(entries) == Err(Scan(Empty, entries[..j]).error)
  {
    assert entries == entries[..j] + entries[j..];
    ScanAppend(Empty, entries[..j], entries[j..]);
  }

  /** An entry with an unknown key has no effect on the result. */
  lemma UnknownSkipped(a: seq<(string, Value)>, key: string, v: Value, b: seq<(string, Value)>)
    requires FieldOf(key) == Unknown
    ensures Deserialize(a + [(key, v)] + b) == Deserialize(a + b)
  {
    ScanAppend(Empty, a, [(key, v)] + b);
    ScanAppend(Empty, a, b);
    assert a + [(key, v)] + b == a + ([(key, v)] + b);
    assert ([(key, v)] + b)[1..] == b;
  }

  /** When the loop gets through, the missing fields are reported in declaration order. */
  lemma MissingInOrder(entries: seq<(string, Value)>)
    requires Scan(Empty, entries).Ok?
    ensures Count(entries, "user_id") == 0 ==> Deserialize(entries) == Err(MissingField("user_id"))
    ensures Count(entries, "user_id") > 0 && Count(entries, "id") == 0 ==> Deserialize(entries) == Err(MissingField("id"))
    ensures Count(entries, "user_id") > 0 && Count(entries, "id") > 0 && Count(entries, "title") == 0 ==>
              Deserialize(entries) == Err(MissingField("title"))
    ensures (Count(entries, "user_id") > 0 && Count(entries, "id") > 0 && Count(entries, "title") > 0
             && Count(entries, "body") == 0) ==> Deserialize(entries) == Err(MissingField("body"))
  {
    ScanOk(Empty, entries);
  }
}
