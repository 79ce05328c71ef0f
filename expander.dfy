/**
 * The batch body expander of the HTTP layer (src/core/http/expander.rs).
 *
 * A request body template is a JSON tree. When a batched call carries
 * `batchSize` requests, every array of the template is repeated `batchSize`
 * times, copy by copy, and inside copy `i` every mustache template that
 * reads the current value (`{{.value.` or `{{value.`) is redirected to
 * element `i` (`{{.value.i.`).
 */
module Expander {
  import opened Strings

  /** A serde_json value. Numbers are never inspected, so they keep their text. */
  datatype Json =
    | Null
    | Bool(b: bool)
    | Number(literal: string)
    | Str(s: string)
    | Array(items: seq<Json>)
    | Object(members: map<string, Json>)

  const DotValue := "{{.value."
  const BareValue := "{{value."

  /** The rewrite of one string in batch copy `index`. */
  function RewriteTemplate(s: string, index: nat): string
  {
    var n := NatToString(index);
    ReplaceAll(ReplaceAll(s, DotValue, "{{.value." + n + "."), BareValue, "{{value." + n + ".")
  }

  /** `update_mustache_expr`: point every value template of `v` at element `index`. */
  function UpdateMustacheExpr(v: Json, index: nat): (r: Json)
    ensures v.Object? ==> r.Object? && r.members.Keys == v.members.Keys
    ensures v.Array? ==> r.Array? && |r.items| == |v.items|
    ensures v.Str? ==> r.Str?
    ensures !v.Object? && !v.Array? && !v.Str? ==> r == v
  {
    match v
    case Object(m) => Object(map k | k in m :: UpdateMustacheExpr(m[k], index))
    case Array(xs) => Array(seq(|xs|, i requires 0 <= i < |xs| => UpdateMustacheExpr(xs[i], index)))
    case Str(s) =>
      if Contains(s, DotValue) || Contains(s, BareValue) then Str(RewriteTemplate(s, index)) else v
    case _ => v
  }

  /** Copy `index` of an already expanded array. */
  function UpdateAll(xs: seq<Json>, index: nat): (r: seq<Json>)
    ensures |r| == |xs|
  {
    seq(|xs|, i requires 0 <= i < |xs| => UpdateMustacheExpr(xs[i], index))
  }

  /** The copies 0 .. batchSize-1 of `xs`, laid end to end. */
  function Batched(xs: seq<Json>, batchSize: nat): seq<Json>
  {
    if batchSize == 0 then [] else Batched(xs, batchSize - 1) + UpdateAll(xs, batchSize - 1)
  }

  /** `expand_inner`, as the function that specifies the method below. */
  function Expand(v: Json, batchSize: nat): (r: Json)
    ensures v.Object? ==> r.Object? && r.members.Keys == v.members.Keys
    ensures v.Array? ==> r.Array? && |r.items| == |v.items| * batchSize
    ensures !v.Object? && !v.Array? ==> r == v
  {
    match v
    case Object(m) => Object(map k | k in m :: Expand(m[k], batchSize))
    case Array(xs) =>
      var expanded := seq(|xs|, i requires 0 <= i < |xs| => Expand(xs[i], batchSize));
      BatchedLength(expanded, batchSize);
      Array(Batched(expanded, batchSize))
    case _ => v
  }

  /**
   * The `for index in 0..batch_size` loop of `expand_inner`: extend the
   * result with one rewritten copy of `expanded` per batch index.
   */
  method BatchCopies(expanded: seq<Json>, batchSize: nat) returns (finalAns: seq<Json>)
    ensures finalAns == Batched(expanded, batchSize)
    ensures |finalAns| == |expanded| * batchSize
    ensures forall i, j :: 0 <= i < batchSize && 0 <= j < |expanded| ==>
              finalAns[i * |expanded| + j] == UpdateMustacheExpr(expanded[j], i)
  {
    finalAns := [];
    for index := 0 to batchSize
      invariant finalAns == Batched(expanded, index)
    {
      finalAns := finalAns + UpdateAll(expanded, index);
    }
    BatchedLayout(expanded, batchSize);
  }

  /** `expand_inner`: objects are expanded member by member, arrays are batched. */
  method ExpandInner(v: Json, batchSize: nat) returns (r: Json)
    ensures r == Expand(v, batchSize)
    decreases v
  {
    match v {
      case Object(m) =>
        var pending := m.Keys;
        var expandedMap: map<string, Json> := map[];
        while pending != {}
          invariant pending <= m.Keys
          invariant expandedMap.Keys == m.Keys - pending
          invariant forall k | k in expandedMap :: expandedMap[k] == Expand(m[k], batchSize)
          decreases pending
        {
          var k :| k in pending;
          var e := ExpandInner(m[k], batchSize);
          expandedMap := expandedMap[k := e];
          pending := pending - {k};
        }
        assert expandedMap == map k | k in m :: Expand(m[k], batchSize);
        r := Object(expandedMap);
      case Array(list) =>
        var expandedList: seq<Json> := [];
        for i := 0 to |list|
          invariant |expandedList| == i
          invariant forall j :: 0 <= j < i ==> expandedList[j] == Expand(list[j], batchSize)
        {
          var e := ExpandInner(list[i], batchSize);
          expandedList := expandedList + [e];
        }
        assert expandedList == seq(|list|, i requires 0 <= i < |list| => Expand(list[i], batchSize));
        var finalAns := BatchCopies(expandedList, batchSize);
        r := Array(finalAns);
      case _ =>
        r := v;
    }
  }

  // ----- Laws of the batch layout -----

  lemma {:induction false} BatchedLength(xs: seq<Json>, batchSize: nat)
    ensures |Batched(xs, batchSize)| == |xs| * batchSize
  {
    if batchSize > 0 {
      BatchedLength(xs, batchSize - 1);
    }
  }

  /** Position `j` of block `i` lies before the end of the first `m` blocks of `n` elements. */
  lemma IndexBelow(i: nat, j: nat, n: nat, m: nat)
    requires i < m && j < n
    ensures i * n + j < n * m
  {
    assert i * n + n == (i + 1) * n;
    assert (i + 1) * n <= m * n;
  }

  /** Element `i * |xs| + j` of the batch is copy `i` of element `j`: the layout is index-major. */
  lemma {:induction false} BatchedAt(xs: seq<Json>, batchSize: nat, i: nat, j: nat)
    requires i < batchSize && j < |xs|
    ensures i * |xs| + j < |Batched(xs, batchSize)| == |xs| * batchSize
    ensures Batched(xs, batchSize)[i * |xs| + j] == UpdateMustacheExpr(xs[j], i)
  {
    var n := |xs|;
    var prev := Batched(xs, batchSize - 1);
    BatchedLength(xs, batchSize - 1);
    BatchedLength(xs, batchSize);
    IndexBelow(i, j, n, batchSize);
    assert Batched(xs, batchSize) == prev + UpdateAll(xs, batchSize - 1);
    if i < batchSize - 1 {
      BatchedAt(xs, batchSize - 1, i, j);
    } else {
      assert i * n == n * (batchSize - 1);
    }
  }

  /** The whole batch: its length and the copy at every position. */
  lemma BatchedLayout(xs: seq<Json>, batchSize: nat)
    ensures |Batched(xs, batchSize)| == |xs| * batchSize
    ensures forall i, j :: 0 <= i < batchSize && 0 <= j < |xs| ==>
              Batched(xs, batchSize)[i * |xs| + j] == UpdateMustacheExpr(xs[j], i)
  {
    BatchedLength(xs, batchSize);
    forall i, j | 0 <= i < batchSize && 0 <= j < |xs|
      ensures i * |xs| + j < |Batched(xs, batchSize)|
      ensures Batched(xs, batchSize)[i * |xs| + j] == UpdateMustacheExpr(xs[j], i)
    {
      BatchedAt(xs, batchSize, i, j);
    }
  }

  /** An array of n elements expands to n × batchSize elements; batch size 0 empties it. */
  lemma ExpandArrayLength(xs: seq<Json>, batchSize: nat)
    ensures Expand(Array(xs), batchSize).Array?
    ensures |Expand(Array(xs), batchSize).items| == |xs| * batchSize
    ensures batchSize == 0 ==> Expand(Array(xs), batchSize).items == []
  {
    BatchedLength(seq(|xs|, i requires 0 <= i < |xs| => Expand(xs[i], batchSize)), batchSize);
  }

  /** Position i·n + j of an expanded array holds copy i of the expansion of element j. */
  lemma ExpandArrayAt(xs: seq<Json>, batchSize: nat, i: nat, j: nat)
    requires i < batchSize && j < |xs|
    ensures |Expand(Array(xs), batchSize).items| == |xs| * batchSize
    ensures Expand(Array(xs), batchSize).items[i * |xs| + j]
            == UpdateMustacheExpr(Expand(xs[j], batchSize), i)
  {
    BatchedAt(seq(|xs|, i requires 0 <= i < |xs| => Expand(xs[i], batchSize)), batchSize, i, j);
  }

  /** Expanding an object keeps exactly its keys, and expands each value. */
  lemma ExpandObject(m: map<string, Json>, batchSize: nat)
    ensures Expand(Object(m), batchSize).Object?
    ensures Expand(Object(m), batchSize).members.Keys == m.Keys
    ensures forall k | k in m :: Expand(Object(m), batchSize).members[k] == Expand(m[k], batchSize)
  {
  }

  /** Scalars and strings outside any array are returned as they are. */
  lemma ExpandScalar(v: Json, batchSize: nat)
    requires !v.Object? && !v.Array?
    ensures Expand(v, batchSize) == v
  {
  }

  // ----- Laws of the template rewrite -----

  /** Two JSON values have the same shape: same kinds, same keys, same lengths, same non-string leaves. */
  ghost predicate SameShape(a: Json, b: Json)
  {
    match a
    case Object(m) =>
      b.Object? && b.members.Keys == m.Keys && forall k | k in m :: SameShape(m[k], b.members[k])
    case Array(xs) =>
      b.Array? && |b.items| == |xs| && forall i | 0 <= i < |xs| :: SameShape(xs[i], b.items[i])
    case Str(_) => b.Str?
    case _ => b == a
  }

  /** Rewriting templates never changes the shape of a value. */
  lemma {:induction false} UpdatePreservesShape(v: Json, index: nat)
    ensures SameShape(v, UpdateMustacheExpr(v, index))
  {
    match v
    case Object(m) =>
      forall k | k in m ensures SameShape(m[k], UpdateMustacheExpr(v, index).members[k]) {
        UpdatePreservesShape(m[k], index);
      }
    case Array(xs) =>
      forall i | 0 <= i < |xs| ensures SameShape(xs[i], UpdateMustacheExpr(v, index).items[i]) {
        UpdatePreservesShape(xs[i], index);
      }
    case _ =>
  }

  /** No string anywhere in `v` mentions a value template. */
  ghost predicate TemplateFree(v: Json)
  {
    match v
    case Object(m) => forall k | k in m :: TemplateFree(m[k])
    case Array(xs) => forall i | 0 <= i < |xs| :: TemplateFree(xs[i])
    case Str(s) => !Contains(s, DotValue) && !Contains(s, BareValue)
    case _ => true
  }

  /** A value without templates is left unchanged by every batch copy. */
  lemma {:induction false} UpdateTemplateFree(v: Json, index: nat)
    requires TemplateFree(v)
    ensures UpdateMustacheExpr(v, index) == v
  {
    match v
    case Object(m) =>
      forall k | k in m ensures UpdateMustacheExpr(m[k], index) == m[k] {
        UpdateTemplateFree(m[k], index);
      }
      assert (map k | k in m :: UpdateMustacheExpr(m[k], index)) == m;
    case Array(xs) =>
      forall i | 0 <= i < |xs| ensures UpdateMustacheExpr(xs[i], index) == xs[i] {
        UpdateTemplateFree(xs[i], index);
      }
      assert seq(|xs|, i requires 0 <= i < |xs| => UpdateMustacheExpr(xs[i], index)) == xs;
    case _ =>
  }

  /**
   * The `contains` guard only saves work: rewriting a string that holds
   * neither template would give back the same string.
   */
  lemma UpdateStringUnguarded(s: string, index: nat)
    ensures UpdateMustacheExpr(Str(s), index) == Str(RewriteTemplate(s, index))
  {
    if !Contains(s, DotValue) && !Contains(s, BareValue) {
      var n := NatToString(index);
      ReplaceAllAbsent(s, DotValue, "{{.value." + n + ".");
      ReplaceAllAbsent(s, BareValue, "{{value." + n + ".");
    }
  }

  /** A string `{{<tail>` with no further `{` holds no template once its third character rules one out. */
  lemma ReplaceAllAfterBraces(tail: string, pat: string, rep: string)
    requires |pat| >= 3 && pat[0] == '{' && pat[1] == '{'
    requires |tail| > 0 && tail[0] != pat[2] && '{' !in tail
    ensures ReplaceAll("{{" + tail, pat, rep) == "{{" + tail
  {
    assert "{{" + tail == ['{'] + (['{'] + tail);
    assert !StartsWith(['{'] + (['{'] + tail), pat) by {
      if |pat| <= |"{{" + tail| { assert ("{{" + tail)[2] == tail[0]; }
    }
    ReplaceAllSkip('{', ['{'] + tail, pat, rep);
    assert !StartsWith(['{'] + tail, pat) by {
      if |pat| <= |['{'] + tail| { assert (['{'] + tail)[1] == tail[0]; }
    }
    ReplaceAllSkip('{', tail, pat, rep);
    AbsentFirstChar(tail, pat);
    ReplaceAllAbsent(tail, pat, rep);
  }

  /**
   * A template `{{.value.<path>` whose path holds no `{` is redirected to
   * `{{.value.<index>.<path>`.
   */
  lemma RewriteDotTemplate(s: string, path: string, index: nat)
    requires s == DotValue + path && '{' !in path
    ensures UpdateMustacheExpr(Str(s), index) == Str("{{.value." + NatToString(index) + "." + path)
  {
    assert OccursAt(s, DotValue, 0);
    var n := NatToString(index);
    var r1 := "{{.value." + n + ".";
    assert OccursAt(DotValue + path, DotValue, 0);
    ReplaceAllLeading(DotValue, path, r1);
    AbsentFirstChar(path, DotValue);
    ReplaceAllAbsent(path, DotValue, r1);
    var tail := ".value." + n + "." + path;
    assert r1 + path == "{{" + tail;
    assert '{' !in tail;
    ReplaceAllAfterBraces(tail, BareValue, "{{value." + n + ".");
  }

  /** The same for `{{value.<path>`, which becomes `{{value.<index>.<path>`. */
  lemma RewriteBareTemplate(s: string, path: string, index: nat)
    requires s == BareValue + path && '{' !in path
    ensures UpdateMustacheExpr(Str(s), index) == Str("{{value." + NatToString(index) + "." + path)
  {
    assert OccursAt(s, BareValue, 0);
    var n := NatToString(index);
    var tail := "value." + path;
    assert BareValue + path == "{{" + tail;
    assert '{' !in tail;
    ReplaceAllAfterBraces(tail, DotValue, "{{.value." + n + ".");
    assert OccursAt(BareValue + path, BareValue, 0);
    ReplaceAllLeading(BareValue, path, "{{value." + n + ".");
    AbsentFirstChar(path, BareValue);
    ReplaceAllAbsent(path, BareValue, "{{value." + n + ".");
  }

  // ----- The four vectors of the source's unit test -----

  /** No array occurs anywhere in `v`. */
  ghost predicate ArrayFree(v: Json)
  {
    match v
    case Object(m) => forall k | k in m :: ArrayFree(m[k])
    case Array(_) => false
    case _ => true
  }

  /** Without arrays there is nothing to batch: expansion is the identity. */
  lemma {:induction false} ExpandArrayFree(v: Json, batchSize: nat)
    requires ArrayFree(v)
    ensures Expand(v, batchSize) == v
  {
    match v
    case Object(m) =>
      forall k | k in m ensures Expand(m[k], batchSize) == m[k] {
        ExpandArrayFree(m[k], batchSize);
      }
      assert (map k | k in m :: Expand(m[k], batchSize)) == m;
    case _ =>
  }

  lemma ExpandSingleton(key: string, v: Json, batchSize: nat)
    ensures Expand(Object(map[key := v]), batchSize) == Object(map[key := Expand(v, batchSize)])
  {
    var m := map[key := v];
    assert (map k | k in m :: Expand(m[k], batchSize)) == map[key := Expand(v, batchSize)];
  }

  /** Two copies of a one-element array. */
  lemma BatchedPair(e: Json)
    ensures Batched([e], 2) == [UpdateMustacheExpr(e, 0), UpdateMustacheExpr(e, 1)]
  {
    assert UpdateAll([e], 0) == [UpdateMustacheExpr(e, 0)];
    assert UpdateAll([e], 1) == [UpdateMustacheExpr(e, 1)];
    assert Batched([e], 1) == [] + UpdateAll([e], 0);
    assert Batched([e], 2) == Batched([e], 1) + UpdateAll([e], 1);
  }

  /** A one-element array with batch size 2 becomes its copies 0 and 1. */
  lemma ExpandPair(x: Json)
    ensures Expand(Array([x]), 2)
         == Array([UpdateMustacheExpr(Expand(x, 2), 0), UpdateMustacheExpr(Expand(x, 2), 1)])
  {
    var e := Expand(x, 2);
    var xs := [x];
    var expanded := seq(|xs|, i requires 0 <= i < |xs| => Expand(xs[i], 2));
    assert expanded == [e];
    assert Expand(Array(xs), 2) == Array(Batched(expanded, 2));
    BatchedPair(e);
  }

  lemma PlainString(s: string, index: nat)
    requires '{' !in s
    ensures UpdateMustacheExpr(Str(s), index) == Str(s)
  {
    AbsentFirstChar(s, DotValue);
    AbsentFirstChar(s, BareValue);
  }

  /** Adding a member to an object and then rewriting is rewriting and then adding the rewritten member. */
  lemma UpdateInsert(m: map<string, Json>, k: string, v: Json, index: nat)
    ensures UpdateMustacheExpr(Object(m[k := v]), index).members
         == UpdateMustacheExpr(Object(m), index).members[k := UpdateMustacheExpr(v, index)]
  {
    var lhs := UpdateMustacheExpr(Object(m[k := v]), index).members;
    var rhs := UpdateMustacheExpr(Object(m), index).members[k := UpdateMustacheExpr(v, index)];
    assert lhs.Keys == rhs.Keys;
    assert forall key | key in lhs :: lhs[key] == rhs[key];
  }

  lemma UpdatePair(k1: string, v1: Json, k2: string, v2: Json, index: nat)
    requires k1 != k2
    ensures UpdateMustacheExpr(Object(map[k1 := v1, k2 := v2]), index)
         == Object(map[k1 := UpdateMustacheExpr(v1, index), k2 := UpdateMustacheExpr(v2, index)])
  {
    var empty: map<string, Json> := map[];
    assert UpdateMustacheExpr(Object(empty), index).members == empty;
    UpdateInsert(empty, k1, v1, index);
    UpdateInsert(empty[k1 := v1], k2, v2, index);
  }

  lemma UpdateTriple(k1: string, v1: Json, k2: string, v2: Json, k3: string, v3: Json, index: nat)
    requires k1 != k2 && k2 != k3 && k1 != k3
    ensures UpdateMustacheExpr(Object(map[k1 := v1, k2 := v2, k3 := v3]), index)
         == Object(map[k1 := UpdateMustacheExpr(v1, index), k2 := UpdateMustacheExpr(v2, index),
                       k3 := UpdateMustacheExpr(v3, index)])
  {
    var empty: map<string, Json> := map[];
    assert UpdateMustacheExpr(Object(empty), index).members == empty;
    UpdateInsert(empty, k1, v1, index);
    UpdateInsert(empty[k1 := v1], k2, v2, index);
    UpdateInsert(empty[k1 := v1][k2 := v2], k3, v3, index);
  }

  /** Expanding a two-member object expands both members. */
  lemma ExpandTwoMembers(k1: string, v1: Json, k2: string, v2: Json, batchSize: nat)
    requires k1 != k2
    ensures Expand(Object(map[k1 := v1, k2 := v2]), batchSize)
         == Object(map[k1 := Expand(v1, batchSize), k2 := Expand(v2, batchSize)])
  {
    var m := map[k1 := v1, k2 := v2];
    var lhs := map k | k in m :: Expand(m[k], batchSize);
    var rhs := map[k1 := Expand(v1, batchSize), k2 := Expand(v2, batchSize)];
    assert lhs.Keys == m.Keys == rhs.Keys;
    assert lhs[k1] == rhs[k1] && lhs[k2] == rhs[k2];
    assert lhs == rhs;
  }

  /** An object of strings has no array, so expanding it changes nothing. */
  lemma ExpandStringObject(m: map<string, Json>)
    requires forall k | k in m :: m[k].Str?
    ensures Expand(Object(m), 2) == Object(m)
  {
    ExpandArrayFree(Object(m), 2);
  }

  /** The template `{{.value.<path>` in copy 0. */
  lemma DotCopy0(s: string, path: string, copy0: string)
    requires s == "{{.value." + path && '{' !in path
    requires copy0 == "{{.value.0." + path
    ensures UpdateMustacheExpr(Str(s), 0) == Str(copy0)
  {
    assert NatToString(0) == "0";
    RewriteDotTemplate(s, path, 0);
  }

  /** The template `{{.value.<path>` in copy 1. */
  lemma DotCopy1(s: string, path: string, copy1: string)
    requires s == "{{.value." + path && '{' !in path
    requires copy1 == "{{.value.1." + path
    ensures UpdateMustacheExpr(Str(s), 1) == Str(copy1)
  {
    assert NatToString(1) == "1";
    RewriteDotTemplate(s, path, 1);
  }

  /** The template `{{.value.<path>` in copies 0 and 1, for a concrete path. */
  lemma DotCopies(s: string, path: string, copy0: string, copy1: string)
    requires s == "{{.value." + path && '{' !in path
    requires copy0 == "{{.value.0." + path && copy1 == "{{.value.1." + path
    ensures UpdateMustacheExpr(Str(s), 0) == Str(copy0)
    ensures UpdateMustacheExpr(Str(s), 1) == Str(copy1)
  {
    DotCopy0(s, path, copy0);
    DotCopy1(s, path, copy1);
  }

  /** `{"a":{"b":{"c":{"d":["{{.value.userId}}"]}}}}` with batch 2. */
  lemma NestedArrayVector(body: Json, leaf: string)
    requires leaf == "{{.value.userId}}"
    requires body == Object(map["a" := Object(map["b" := Object(map["c" :=
                       Object(map["d" := Array([Str(leaf)])])])])])
    ensures Expand(body, 2)
         == Object(map["a" := Object(map["b" := Object(map["c" :=
              Object(map["d" := Array([Str("{{.value.0.userId}}"), Str("{{.value.1.userId}}")])])])])])
  {
    DotCopies(leaf, "userId}}", "{{.value.0.userId}}", "{{.value.1.userId}}");
    var arr := Array([Str(leaf)]);
    ExpandPair(Str(leaf));
    ExpandSingleton("d", arr, 2);
    ExpandSingleton("c", Object(map["d" := arr]), 2);
    ExpandSingleton("b", Object(map["c" := Object(map["d" := arr])]), 2);
    ExpandSingleton("a", Object(map["b" := Object(map["c" := Object(map["d" := arr])])]), 2);
  }

  /** `[{"userId":"{{.value.id}}","title":"{{.value.name}}","content":"Hello World"}]` with batch 2. */
  lemma ArrayOfObjectVector(body: Json, id: string, name: string, hello: string)
    requires id == "{{.value.id}}" && name == "{{.value.name}}" && hello == "Hello World"
    requires body == Array([Object(map["userId" := Str(id), "title" := Str(name),
                                       "content" := Str(hello)])])
    ensures Expand(body, 2)
         == Array([Object(map["userId" := Str("{{.value.0.id}}"),
                              "title" := Str("{{.value.0.name}}"),
                              "content" := Str(hello)]),
                   Object(map["userId" := Str("{{.value.1.id}}"),
                              "title" := Str("{{.value.1.name}}"),
                              "content" := Str(hello)])])
  {
    var m := map["userId" := Str(id), "title" := Str(name), "content" := Str(hello)];
    ExpandStringObject(m);
    ExpandPair(Object(m));
    PostCopy0(id, name, hello);
    PostCopy1(id, name, hello);
  }

  /** The templates of the second vector and their copies, split after `{{.value.` and `{{.value.<i>.`. */
  lemma PostLiterals()
    ensures "{{.value.id}}" == "{{.value." + "id}}" && "{{.value.name}}" == "{{.value." + "name}}"
    ensures "{{.value.0.id}}" == "{{.value.0." + "id}}" && "{{.value.0.name}}" == "{{.value.0." + "name}}"
    ensures "{{.value.1.id}}" == "{{.value.1." + "id}}" && "{{.value.1.name}}" == "{{.value.1." + "name}}"
  {
  }

  /** Copy 0 of the object of the second vector. */
  lemma PostCopy0(id: string, name: string, hello: string)
    requires id == "{{.value.id}}" && name == "{{.value.name}}" && hello == "Hello World"
    ensures UpdateMustacheExpr(Object(map["userId" := Str(id), "title" := Str(name), "content" := Str(hello)]), 0)
         == Object(map["userId" := Str("{{.value.0.id}}"), "title" := Str("{{.value.0.name}}"), "content" := Str(hello)])
  {
    PostLiterals();
    DotCopy0(id, "id}}", "{{.value.0.id}}");
    DotCopy0(name, "name}}", "{{.value.0.name}}");
    PlainString(hello, 0);
    TripleCopy("userId", id, "{{.value.0.id}}", "title", name, "{{.value.0.name}}", "content", hello, 0);
  }

  /** Copy 1 of the object of the second vector. */
  lemma PostCopy1(id: string, name: string, hello: string)
    requires id == "{{.value.id}}" && name == "{{.value.name}}" && hello == "Hello World"
    ensures UpdateMustacheExpr(Object(map["userId" := Str(id), "title" := Str(name), "content" := Str(hello)]), 1)
         == Object(map["userId" := Str("{{.value.1.id}}"), "title" := Str("{{.value.1.name}}"), "content" := Str(hello)])
  {
    PostLiterals();
    DotCopy1(id, "id}}", "{{.value.1.id}}");
    DotCopy1(name, "name}}", "{{.value.1.name}}");
    PlainString(hello, 1);
    TripleCopy("userId", id, "{{.value.1.id}}", "title", name, "{{.value.1.name}}", "content", hello, 1);
  }

  /** Copy `index` of a three-member object of strings, given the copies of its strings. */
  lemma TripleCopy(k1: string, s1: string, c1: string, k2: string, s2: string, c2: string,
                   k3: string, s3: string, index: nat)
    requires k1 != k2 && k2 != k3 && k1 != k3
    requires UpdateMustacheExpr(Str(s1), index) == Str(c1)
    requires UpdateMustacheExpr(Str(s2), index) == Str(c2)
    requires UpdateMustacheExpr(Str(s3), index) == Str(s3)
    ensures UpdateMustacheExpr(Object(map[k1 := Str(s1), k2 := Str(s2), k3 := Str(s3)]), index)
         == Object(map[k1 := Str(c1), k2 := Str(c2), k3 := Str(s3)])
  {
    UpdateTriple(k1, Str(s1), k2, Str(s2), k3, Str(s3), index);
  }

  /** `[{"metadata":"xyz","items":"{{.value.userId}}"}]` with batch 2. */
  lemma TemplateBesidePlainVector(body: Json, item: string, xyz: string)
    requires item == "{{.value.userId}}" && xyz == "xyz"
    requires body == Array([Object(map["metadata" := Str(xyz), "items" := Str(item)])])
    ensures Expand(body, 2)
         == Array([Object(map["metadata" := Str(xyz), "items" := Str("{{.value.0.userId}}")]),
                   Object(map["metadata" := Str(xyz), "items" := Str("{{.value.1.userId}}")])])
  {
    var m := map["metadata" := Str(xyz), "items" := Str(item)];
    DotCopies(item, "userId}}", "{{.value.0.userId}}", "{{.value.1.userId}}");
    PlainString(xyz, 0);
    PlainString(xyz, 1);
    ExpandStringObject(m);
    ExpandPair(Object(m));
    UpdatePair("metadata", Str(xyz), "items", Str(item), 0);
    UpdatePair("metadata", Str(xyz), "items", Str(item), 1);
  }

  /** The `items` array of the fourth vector with batch 2. */
  lemma KeyValueItems(value: string, id: string)
    requires value == "{{.value.userId}}" && id == "id"
    ensures Expand(Array([Object(map["key" := Str(id), "value" := Str(value)])]), 2)
         == Array([Object(map["key" := Str(id), "value" := Str("{{.value.0.userId}}")]),
                   Object(map["key" := Str(id), "value" := Str("{{.value.1.userId}}")])])
  {
    var inner := map["key" := Str(id), "value" := Str(value)];
    DotCopies(value, "userId}}", "{{.value.0.userId}}", "{{.value.1.userId}}");
    PlainString(id, 0);
    PlainString(id, 1);
    ExpandStringObject(inner);
    ExpandPair(Object(inner));
    UpdatePair("key", Str(id), "value", Str(value), 0);
    UpdatePair("key", Str(id), "value", Str(value), 1);
  }

  /** `{"metadata":"xyz","items":[{"key":"id","value":"{{.value.userId}}"}]}` with batch 2. */
  lemma ArrayInsideObjectVector(body: Json, value: string, xyz: string, id: string)
    requires value == "{{.value.userId}}" && xyz == "xyz" && id == "id"
    requires body == Object(map["metadata" := Str(xyz),
                                "items" := Array([Object(map["key" := Str(id), "value" := Str(value)])])])
    ensures Expand(body, 2)
         == Object(map["metadata" := Str(xyz),
                       "items" := Array([Object(map["key" := Str(id), "value" := Str("{{.value.0.userId}}")]),
                                         Object(map["key" := Str(id), "value" := Str("{{.value.1.userId}}")])])])
  {
    KeyValueItems(value, id);
    ExpandTwoMembers("metadata", Str(xyz), "items", Array([Object(map["key" := Str(id), "value" := Str(value)])]), 2);
  }
}
