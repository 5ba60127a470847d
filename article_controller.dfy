/** The article controller of the CMS backend (my-project/src/api/article/controllers/article.ts):
    `find` keeps only featured articles when asked to, and `getRelated` lists up to three
    other articles of the same category. The framework's default `find` and the database
    are collaborators: their results enter as sequences. */
module ArticleController {
  import opened Options
  import opened JsValues

  // ---------- find ----------

  /** The `{data, meta}` envelope of a collection response. */
  datatype Envelope = Envelope(data: seq<JsValue>, meta: JsValue)

  /** The outcome of the handler: a response, or a TypeError thrown inside it. */
  datatype FindOutcome = Responded(body: Envelope) | Threw

  /** `article.attributes.featured`. It throws exactly when the entry or its `attributes`
      is `undefined` or `null`, and otherwise reads what `article?.attributes?.featured` reads. */
  function FeaturedFlag(article: JsValue): (r: Access)
    ensures r == TypeError <==> article in {Undefined, Null} || OptProp(article, "attributes") in {Undefined, Null}
    ensures r.Value? ==> r.v == OptProp(OptProp(article, "attributes"), "featured")
  {
    match Prop(article, "attributes")
    case TypeError => TypeError
    case Value(attributes) => Prop(attributes, "featured")
  }

  predicate IsFeatured(article: JsValue) {
    FeaturedFlag(article) == Value(Bool(true))
  }

  /** `s` is an order-preserving subsequence of `t`. */
  predicate IsSubsequence(s: seq<JsValue>, t: seq<JsValue>)
    decreases |t|
  {
    s == [] || (t != [] && (if s[0] == t[0] then IsSubsequence(s[1..], t[1..]) else IsSubsequence(s, t[1..])))
  }

  /** `data.filter(article => article.attributes.featured === true)`; `None` when the
      callback throws for some entry. Kept entries are exactly the featured ones, in their
      order, each as often as it occurs. */
  function FilterFeatured(data: seq<JsValue>): (r: Option<seq<JsValue>>)
    ensures r.None? <==> exists i :: 0 <= i < |data| && FeaturedFlag(data[i]).TypeError?
    ensures r.Some? ==> IsSubsequence(r.value, data)
    ensures r.Some? ==> forall x :: x in r.value ==> IsFeatured(x)
    ensures r.Some? ==> forall x :: multiset(r.value)[x] == if IsFeatured(x) then multiset(data)[x] else 0
  {
    if data == [] then Some([])
    else if FeaturedFlag(data[0]).TypeError? then None
    else
      match FilterFeatured(data[1..])
      case None =>
        assert exists i :: 0 <= i < |data[1..]| && FeaturedFlag(data[1..][i]).TypeError?;
        var i :| 0 <= i < |data[1..]| && FeaturedFlag(data[1..][i]).TypeError?;
        assert FeaturedFlag(data[i + 1]).TypeError?;
        None
      case Some(rest) =>
        assert data == [data[0]] + data[1..];
        assert forall i :: 1 <= i < |data| ==> data[i] == data[1..][i - 1];
        if IsFeatured(data[0]) then Some([data[0]] + rest) else Some(rest)
  }

  /** `find`: with the query parameter `featured` equal to the string `'true'`, only the
      featured entries of the default result are kept; otherwise the default result is
      returned as it is. `meta` always passes through. */
  function Find(featured: JsValue, result: Envelope): (o: FindOutcome)
    ensures featured != Str("true") ==> o == Responded(result)
    ensures featured == Str("true") && o.Responded? ==>
              o.body.meta == result.meta
              && IsSubsequence(o.body.data, result.data)
              && (forall x :: x in o.body.data ==> IsFeatured(x))
              && (forall x :: multiset(o.body.data)[x] == if IsFeatured(x) then multiset(result.data)[x] else 0)
    ensures featured == Str("true") ==>
              (o.Threw? <==> exists i :: 0 <= i < |result.data| && FeaturedFlag(result.data[i]).TypeError?)
  {
    if featured == Str("true") then
      match FilterFeatured(result.data)
      case None => Threw
      case Some(filtered) => Responded(Envelope(filtered, result.meta))
    else Responded(result)
  }

  // ---------- getRelated ----------

  datatype CategoryRef = CategoryRef(id: int)

  /** A stored article with its populated category (`None` when it has none). */
  datatype ArticleRow = ArticleRow(id: int, category: Option<CategoryRef>)

  /** The response of `getRelated`. */
  datatype RelatedResponse = BadRequest(message: string) | NotFound(message: string) | Related(data: seq<ArticleRow>)

  /** `findOne({where: {id}})`: the first stored row whose id the route parameter denotes.
      How the database compares the string parameter with the numeric column is the
      parameter `idMatches`. */
  function FindOne(store: seq<ArticleRow>, id: string, idMatches: (string, int) -> bool): (r: Option<ArticleRow>)
    ensures r.Some? ==> r.value in store && idMatches(id, r.value.id)
    ensures r.None? <==> forall row :: row in store ==> !idMatches(id, row.id)
  {
    if store == [] then None
    else if idMatches(id, store[0].id) then Some(store[0])
    else
      var r := FindOne(store[1..], id, idMatches);
      assert forall row :: row in store ==> row == store[0] || row in store[1..];
      r
  }

  /** The rows `findMany` may return: not the article itself, same category. */
  predicate IsCandidate(row: ArticleRow, id: string, categoryId: int, idMatches: (string, int) -> bool) {
    !idMatches(id, row.id) && row.category == Some(CategoryRef(categoryId))
  }

  /** `findMany({where: {id: {$ne: id}, category: {id: categoryId}}})` with the store's order
      standing for the order the database returns rows in. */
  function Candidates(store: seq<ArticleRow>, id: string, categoryId: int, idMatches: (string, int) -> bool): (r: seq<ArticleRow>)
    ensures forall row :: row in r <==> row in store && IsCandidate(row, id, categoryId, idMatches)
  {
    if store == [] then []
    else
      var rest := Candidates(store[1..], id, categoryId, idMatches);
      assert forall row :: row in store <==> row == store[0] || row in store[1..];
      if IsCandidate(store[0], id, categoryId, idMatches) then [store[0]] + rest else rest
  }

  const RelatedLimit := 3

  /** `getRelated` for the route parameter `id` (`None` when the route has none). */
  function GetRelated(store: seq<ArticleRow>, id: Option<string>, idMatches: (string, int) -> bool): (r: RelatedResponse)
    ensures (id.None? || id.value == "") <==> r == BadRequest("ID is required")
    ensures r.NotFound? <==> id.Some? && id.value != "" && forall row :: row in store ==> !idMatches(id.value, row.id)
    ensures r.NotFound? ==> r.message == "Article not found"
    ensures r.Related? ==>
              var source := FindOne(store, id.value, idMatches).value;
              && |r.data| <= RelatedLimit
              && (source.category.None? ==> r.data == [])
              && (forall row :: row in r.data ==>
                    row in store && !idMatches(id.value, row.id) && row.category.Some?
                    && row.category == source.category)
  {
    if id.None? || id.value == "" then BadRequest("ID is required")
    else
      match FindOne(store, id.value, idMatches)
      case None => NotFound("Article not found")
      case Some(article) =>
        if article.category.Some? then
          var all := Candidates(store, id.value, article.category.value.id, idMatches);
          var taken := if |all| <= RelatedLimit then all else all[..RelatedLimit];
          assert forall row :: row in taken ==> row in all;
          Related(taken)
        else Related([])
  }

  /** The route parameter alone decides a bad request: the store is never consulted. */
  lemma MissingIdNeedsNoLookup(store1: seq<ArticleRow>, store2: seq<ArticleRow>, idMatches: (string, int) -> bool)
    ensures GetRelated(store1, None, idMatches) == GetRelated(store2, Some(""), idMatches) == BadRequest("ID is required")
  {
  }

  /** Only the limit cuts the list short: fewer than three related articles means every
      other article of the category is listed, in store order. */
  lemma RelatedComplete(store: seq<ArticleRow>, id: string, idMatches: (string, int) -> bool)
    requires GetRelated(store, Some(id), idMatches).Related?
    requires FindOne(store, id, idMatches).value.category.Some?
    ensures var source := FindOne(store, id, idMatches).value;
            var all := Candidates(store, id, source.category.value.id, idMatches);
            var data := GetRelated(store, Some(id), idMatches).data;
            data == all[..if |all| <= RelatedLimit then |all| else RelatedLimit]
            && (|data| < RelatedLimit ==> forall row :: row in store && IsCandidate(row, id, source.category.value.id, idMatches) ==> row in data)
  {
    var source := FindOne(store, id, idMatches).value;
    var all := Candidates(store, id, source.category.value.id, idMatches);
    assert all[..|all|] == all;
  }
}
