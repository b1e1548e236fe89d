/**
 * The site record, as the client receives it: every field may be missing, and a
 * missing site is `None`. Helpers here give JavaScript's truthiness for the field
 * kinds the utilities test.
 */
module Sites {
  import opened Wrappers

  type SiteId = int

  /** `site.options`. `file_mod_disabled` is an ordered list of clue strings. */
  datatype SiteOptions = SiteOptions(
    permalinkStructure: Option<string>,
    timezone: Option<string>,
    gmtOffset: Option<string>,
    fileModDisabled: Option<seq<string>>,
    isMultiNetwork: Option<bool>,
    unmappedUrl: Option<string>,
    mainNetworkSite: Option<string>,
    defaultCategory: Option<int>,
    defaultPostFormat: Option<string>)

  /** `site.settings`: the preferred source of the posting defaults. */
  datatype SiteSettings = SiteSettings(
    defaultCategory: Option<int>,
    defaultPostFormat: Option<string>)

  datatype Site = Site(
    name: Option<string>,
    domain: Option<string>,
    url: Option<string>,
    capabilities: Option<map<string, bool>>,
    options: Option<SiteOptions>,
    settings: Option<SiteSettings>,
    isMultisite: Option<bool>,
    jetpack: Option<bool>,
    hasMinimumJetpackVersion: Option<bool>)

  /** The only exception the utilities can raise: reading a property of `undefined`. */
  datatype JsError = TypeError

  /** Truthiness of an optional flag. */
  predicate Truthy(b: Option<bool>)
  {
    b == Some(true)
  }

  /** Truthiness of an optional string: present and not empty. */
  predicate NonEmpty(s: Option<string>)
  {
    s.Some? && s.value != ""
  }

  /** `site.options.file_mod_disabled`, which throws when the site or its options are missing. */
  function FileModDisabledOf(site: Option<Site>): (r: Result<Option<seq<string>>, JsError>)
    ensures r.Failure? <==> site.None? || site.value.options.None?
    ensures r.Success? ==> r.value == site.value.options.value.fileModDisabled
  {
    match site
    case None => Failure(TypeError)
    case Some(s) =>
      match s.options
      case None => Failure(TypeError)
      case Some(o) => Success(o.fileModDisabled)
  }

  /** `list && -1 < list.indexOf( clue )`. */
  predicate HasClue(list: Option<seq<string>>, clue: string)
  {
    list.Some? && clue in list.value
  }
}
