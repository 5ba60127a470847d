/** The submit handler of the article form (strapifront/src/components/ArticleForm.tsx):
    the slug, the payload sent to the API, and which identifier an edit is sent to.
    The image upload that precedes the payload is I/O; its outcome enters as the
    uploaded image id. */
module ArticleForm {
  import opened Options
  import opened JsStrings
  import opened Slug

  datatype Mode = Create | Edit

  /** The four text fields of the form. */
  datatype FormData = FormData(title: string, description: string, slug: string, category: string)

  datatype CoverRef = CoverRef(id: int)

  /** The payload: `cover` and `category` are keys that may be absent. */
  datatype ArticleData = ArticleData(
    title: string,
    description: string,
    slug: string,
    cover: Option<CoverRef>,
    category: Option<int>)

  /** `if (coverImageId)`: an id that exists and is not 0. */
  predicate IsTruthyId(coverImageId: Option<int>) {
    coverImageId.Some? && coverImageId.value != 0
  }

  /** Builds the article payload from the form and the id of the image uploaded just
      before (`None` when nothing was uploaded), updating the payload step by step. */
  method BuildArticleData(form: FormData, coverImageId: Option<int>) returns (data: ArticleData)
    ensures data.title == form.title && data.description == form.description
    ensures data.slug == NormalizeSlug(form.slug, form.title) && IsSlug(data.slug)
    ensures data.cover.Some? <==> IsTruthyId(coverImageId)
    ensures data.cover.Some? ==> data.cover.value == CoverRef(coverImageId.value)
    ensures data.category.Some? <==> !AllWhiteSpace(form.category) && ParseInt(form.category).Some?
    ensures data.category.Some? ==> data.category == ParseInt(form.category)
  {
    var slug := form.slug;
    if slug == "" {
      slug := DeriveSlug(form.title);
    } else {
      slug := CleanSlug(slug);
    }
    data := ArticleData(form.title, form.description, slug, None, None);
    if IsTruthyId(coverImageId) {
      data := data.(cover := Some(CoverRef(coverImageId.value)));
    }
    TrimEmptyIff(form.category);
    if form.category != "" && Trim(form.category) != "" {
      var categoryId := ParseInt(form.category);
      if categoryId.Some? {
        data := data.(category := categoryId);
      }
    } else {
      data := data.(category := None);
    }
  }

  /** Where an edit is sent: the document id, or the route id converted by `Number`, or the route id as typed. */
  datatype Target = ByDocumentId(documentId: string) | ByNumber(n: JsNumber) | ByRawId(id: string)

  /** The API call a submit ends in. */
  datatype Request = CreateArticle(data: ArticleData) | UpdateArticle(target: Target, data: ArticleData) | NoRequest

  /** The identifier an edit targets, given the document id remembered from loading the
      article and the id in the route. */
  function UpdateTarget(documentId: Option<string>, routeId: string): (t: Target)
    ensures documentId.Some? && documentId.value != "" ==> t == ByDocumentId(documentId.value)
    ensures (documentId.None? || documentId.value == "") ==>
              (t.ByNumber? <==> StringToNumber(routeId).Some?) && !t.ByDocumentId?
    ensures t.ByNumber? ==> StringToNumber(routeId) == Some(t.n)
    ensures t.ByRawId? ==> t.id == routeId
  {
    if documentId.Some? && documentId.value != "" then ByDocumentId(documentId.value)
    else match StringToNumber(routeId)
      case Some(n) => ByNumber(n)
      case None => ByRawId(routeId)
  }

  /** The request a submit issues: a create, an update of the chosen target when editing
      with an id in the route, and nothing when editing without one. */
  function SubmitRequest(mode: Mode, routeId: Option<string>, documentId: Option<string>, data: ArticleData): (r: Request)
    ensures mode == Create ==> r == CreateArticle(data)
    ensures mode == Edit && routeId.Some? && routeId.value != "" ==>
              r == UpdateArticle(UpdateTarget(documentId, routeId.value), data)
    ensures mode == Edit && (routeId.None? || routeId.value == "") ==> r == NoRequest
  {
    match mode
    case Create => CreateArticle(data)
    case Edit =>
      if routeId.Some? && routeId.value != "" then UpdateArticle(UpdateTarget(documentId, routeId.value), data)
      else NoRequest
  }

  /** A known document id always wins over the route id. */
  lemma DocumentIdPreferred(doc: string, routeId: string, data: ArticleData)
    requires doc != "" && routeId != ""
    ensures SubmitRequest(Edit, Some(routeId), Some(doc), data) == UpdateArticle(ByDocumentId(doc), data)
  {
  }

  /** Without a document id, a numeric route id is converted to its number. */
  lemma NumericRouteId(n: nat, data: ArticleData)
    ensures SubmitRequest(Edit, Some(DecimalText(n)), None, data) == UpdateArticle(ByNumber(Finite(n as real)), data)
  {
    NumberOfDecimalText(n);
    DecimalTextDigits(n);
  }

  /** Without a document id, a route id that starts with a lower-case letter, as a slug
      does, is not numeric and is used as typed. */
  lemma SlugRouteIdUsedAsIs(routeId: string, data: ArticleData)
    requires Trim(routeId) != [] && 'a' <= Trim(routeId)[0] <= 'z'
    ensures SubmitRequest(Edit, Some(routeId), None, data) == UpdateArticle(ByRawId(routeId), data)
  {
    TrimEmptyIff(routeId);
    NotNumberWhenLetterFirst(routeId);
  }

  /** A non-empty route id of white space alone is truthy, and `Number` reads it as 0. */
  lemma BlankRouteIdIsZero(w: string, data: ArticleData)
    requires w != "" && AllWhiteSpace(w)
    ensures SubmitRequest(Edit, Some(w), None, data) == UpdateArticle(ByNumber(Finite(0.0)), data)
  {
    TrimEmptyIff(w);
  }
}
