/** The cover image shown for an article in the list (`getImageUrl` in
    strapifront/src/components/ArticleList.tsx): the medium rendition, else the small
    one, else the original upload, each served by the CMS; a placeholder when there is none. */
module ArticleList {
  import opened JsValues

  const Placeholder := "https://placehold.co/600x400?text=No+Image"
  const BaseUrl := "http://localhost:1337"

  /** `cover.formats?.medium?.url`. */
  function MediumUrl(cover: JsValue): JsValue {
    OptProp(OptProp(OptProp(cover, "formats"), "medium"), "url")
  }

  /** `cover.formats?.small?.url`. */
  function SmallUrl(cover: JsValue): JsValue {
    OptProp(OptProp(OptProp(cover, "formats"), "small"), "url")
  }

  /** `cover.url`. */
  function OriginalUrl(cover: JsValue): JsValue {
    OptProp(cover, "url")
  }

  /** `getImageUrl(cover)`: the first truthy url among the medium, small and original
      ones, prefixed with the CMS address; the placeholder when the cover is missing or
      has no url at all. */
  function GetImageUrl(cover: JsValue): (r: string)
    ensures !Truthy(cover) ==> r == Placeholder
    ensures Truthy(cover) && Truthy(MediumUrl(cover)) ==> r == BaseUrl + ToText(MediumUrl(cover))
    ensures Truthy(cover) && !Truthy(MediumUrl(cover)) && Truthy(SmallUrl(cover)) ==>
              r == BaseUrl + ToText(SmallUrl(cover))
    ensures Truthy(cover) && !Truthy(MediumUrl(cover)) && !Truthy(SmallUrl(cover)) && Truthy(OriginalUrl(cover)) ==>
              r == BaseUrl + ToText(OriginalUrl(cover))
    ensures r == Placeholder
            || exists u :: u in [MediumUrl(cover), SmallUrl(cover), OriginalUrl(cover)] && Truthy(u) && r == BaseUrl + ToText(u)
  {
    if !Truthy(cover) then Placeholder
    else if Truthy(MediumUrl(cover)) then BaseUrl + ToText(MediumUrl(cover))
    else if Truthy(SmallUrl(cover)) then BaseUrl + ToText(SmallUrl(cover))
    else if Truthy(OriginalUrl(cover)) then BaseUrl + ToText(OriginalUrl(cover))
    else Placeholder
  }

  /** No CMS url can be mistaken for the placeholder. */
  lemma ServedUrlIsNotPlaceholder(path: string)
    ensures BaseUrl + path != Placeholder
  {
    assert (BaseUrl + path)[4] == ':' && Placeholder[4] == 's';
  }

  /** The placeholder is shown exactly when the cover is missing or none of its three urls is set. */
  lemma PlaceholderIff(cover: JsValue)
    ensures GetImageUrl(cover) == Placeholder <==>
              !Truthy(cover) || (!Truthy(MediumUrl(cover)) && !Truthy(SmallUrl(cover)) && !Truthy(OriginalUrl(cover)))
  {
    if Truthy(cover) {
      if Truthy(MediumUrl(cover)) {
        ServedUrlIsNotPlaceholder(ToText(MediumUrl(cover)));
      } else if Truthy(SmallUrl(cover)) {
        ServedUrlIsNotPlaceholder(ToText(SmallUrl(cover)));
      } else if Truthy(OriginalUrl(cover)) {
        ServedUrlIsNotPlaceholder(ToText(OriginalUrl(cover)));
      }
    }
  }

  /** A cover shaped like the CMS's image record, with a medium rendition, is shown through that rendition. */
  lemma MediumPreferred(medium: string, small: string, original: string)
    requires medium != ""
    ensures var cover := Obj(map[
              "url" := Str(original),
              "formats" := Obj(map["medium" := Obj(map["url" := Str(medium)]), "small" := Obj(map["url" := Str(small)])])]);
            GetImageUrl(cover) == BaseUrl + medium
  {
  }
}
