/**
 * Predicates and getters over a possibly absent, partially populated site record:
 * capability and permalink checks, option getters with a settings-over-options
 * fallback, the file-modification gates and their reasons, the main-network check,
 * and scheme stripping of URLs.
 */
module SiteUtils {
  import opened Wrappers
  import opened Text
  import opened Sites

  // ---------------------------------------------------------------------------
  // Simple lookups

  /** `site && site.capabilities && site.capabilities[ capability ]`, read as a boolean. */
  function UserCan(capability: string, site: Option<Site>): (r: bool)
    ensures r <==> site.Some? && site.value.capabilities.Some?
                   && capability in site.value.capabilities.value
                   && site.value.capabilities.value[capability]
  {
    match site
    case None => false
    case Some(s) =>
      match s.capabilities
      case None => false
      case Some(caps) => capability in caps && caps[capability]
  }

  /**
   * A property of the capability lookup only (nothing in the utilities grants capabilities):
   * each capability is read from its own entry of the map.
   */
  lemma UserCanGrant(capability: string, other: string, site: Site, caps: map<string, bool>)
    requires site.capabilities == Some(caps)
    ensures UserCan(capability, Some(site.(capabilities := Some(caps[capability := true]))))
    ensures other != capability ==>
      UserCan(other, Some(site.(capabilities := Some(caps[capability := true])))) == UserCan(other, Some(site))
  {
  }

  /** `site && site.jetpack`, read as a boolean. */
  function IsJetpack(site: Option<Site>): (r: bool)
    ensures r <==> site.Some? && Truthy(site.value.jetpack)
  {
    site.Some? && Truthy(site.value.jetpack)
  }

  /** `site.options.timezone` when the site has options, otherwise no value. */
  function Timezone(site: Option<Site>): (r: Option<string>)
    ensures site.None? || site.value.options.None? ==> r.None?
    ensures site.Some? && site.value.options.Some? ==> r == site.value.options.value.timezone
  {
    if site.Some? && site.value.options.Some? then site.value.options.value.timezone else None
  }

  /** `site.options.gmt_offset` when the site has options, otherwise no value. */
  function GmtOffset(site: Option<Site>): (r: Option<string>)
    ensures site.None? || site.value.options.None? ==> r.None?
    ensures site.Some? && site.value.options.Some? ==> r == site.value.options.value.gmtOffset
  {
    if site.Some? && site.value.options.Some? then site.value.options.value.gmtOffset else None
  }

  /** The timezone and offset getters read the options and nothing else of the site. */
  lemma OptionGettersReadOnlyOptions(a: Site, b: Site)
    requires a.options == b.options
    ensures Timezone(Some(a)) == Timezone(Some(b))
    ensures GmtOffset(Some(a)) == GmtOffset(Some(b))
  {
  }

  // ---------------------------------------------------------------------------
  // Permalinks

  const PostnameTag := "/%postname%"

  /** What `/\/%postname%\/?/.test( s )` accepts: the tag, optionally followed by a slash, somewhere in `s`. */
  ghost predicate PostnamePatternMatches(s: string)
  {
    exists i :: OccursAt(PostnameTag, s, i) || OccursAt(PostnameTag + "/", s, i)
  }

  /** The optional trailing slash of the permalink pattern changes nothing: the tag alone decides. */
  lemma PostnameSlashIsOptional(s: string)
    ensures PostnamePatternMatches(s) <==> Occurs(PostnameTag, s)
  {
    if PostnamePatternMatches(s) {
      var i :| OccursAt(PostnameTag, s, i) || OccursAt(PostnameTag + "/", s, i);
      if OccursAt(PostnameTag + "/", s, i) {
        assert s[i..i + |PostnameTag|] == (PostnameTag + "/")[..|PostnameTag|];
      }
      assert OccursAt(PostnameTag, s, i);
    }
  }

  /** Permalinks are editable when the permalink structure contains a `%postname%` segment. */
  function IsPermalinkEditable(site: Option<Site>): (r: bool)
    ensures site.None? || site.value.options.None? || site.value.options.value.permalinkStructure.None? ==> !r
    ensures site.Some? && site.value.options.Some? && site.value.options.value.permalinkStructure.Some? ==>
      (r <==> PostnamePatternMatches(site.value.options.value.permalinkStructure.value))
  {
    if site.None? || site.value.options.None? || !NonEmpty(site.value.options.value.permalinkStructure) then
      false
    else
      var structure := site.value.options.value.permalinkStructure.value;
      PostnameSlashIsOptional(structure);
      Contains(structure, PostnameTag)
  }

  // ---------------------------------------------------------------------------
  // Settings-over-options defaults

  /**
   * The fallback chain of the default getters: an absent site gives nothing; a present
   * `settings` decides, even without the field; `options` is read only without `settings`.
   */
  function DefaultFrom<T>(site: Option<Site>, fromSettings: SiteSettings -> Option<T>,
                          fromOptions: SiteOptions -> Option<T>): Option<T>
  {
    if site.None? then None
    else if site.value.settings.Some? then fromSettings(site.value.settings.value)
    else if site.value.options.Some? then fromOptions(site.value.options.value)
    else None
  }

  /** One step of an ordered rule list: when `applies`, the rule decides with `result`. */
  datatype Rule<T> = Rule(applies: bool, result: Option<T>)

  /** The result of the first rule that applies; no value when none does. */
  function FirstApplicable<T>(rules: seq<Rule<T>>): (r: Option<T>)
    ensures (forall i | 0 <= i < |rules| :: !rules[i].applies) ==> r.None?
    ensures forall i | 0 <= i < |rules| && rules[i].applies && (forall j | 0 <= j < i :: !rules[j].applies) ::
      r == rules[i].result
    decreases |rules|
  {
    if |rules| == 0 then None
    else if rules[0].applies then rules[0].result
    else
      FirstApplicable(rules[1..])
  }

  /** The fallback chain as an explicit, ordered rule list. */
  function FallbackRules<T>(site: Option<Site>, fromSettings: SiteSettings -> Option<T>,
                            fromOptions: SiteOptions -> Option<T>): seq<Rule<T>>
  {
    [ Rule(site.None?, None),
      Rule(site.Some? && site.value.settings.Some?,
           if site.Some? && site.value.settings.Some? then fromSettings(site.value.settings.value) else None),
      Rule(site.Some? && site.value.options.Some?,
           if site.Some? && site.value.options.Some? then fromOptions(site.value.options.value) else None) ]
  }

  /** The nested conditionals of the getters pick the same value as the ordered rule list. */
  lemma DefaultFromFollowsRules<T>(site: Option<Site>, fromSettings: SiteSettings -> Option<T>,
                                   fromOptions: SiteOptions -> Option<T>)
    ensures DefaultFrom(site, fromSettings, fromOptions) == FirstApplicable(FallbackRules(site, fromSettings, fromOptions))
  {
    var rules := FallbackRules(site, fromSettings, fromOptions);
    if site.None? {
      assert rules[0].applies;
    } else if site.value.settings.Some? {
      assert !rules[0].applies && rules[1].applies;
    } else if site.value.options.Some? {
      assert !rules[0].applies && !rules[1].applies && rules[2].applies;
    } else {
      assert forall i | 0 <= i < |rules| :: !rules[i].applies;
    }
  }

  function GetDefaultCategory(site: Option<Site>): (r: Option<int>)
    ensures site.None? ==> r.None?
    ensures site.Some? && site.value.settings.Some? ==> r == site.value.settings.value.defaultCategory
    ensures site.Some? && site.value.settings.None? && site.value.options.Some? ==>
      r == site.value.options.value.defaultCategory
    ensures site.Some? && site.value.settings.None? && site.value.options.None? ==> r.None?
  {
    DefaultFrom(site, (s: SiteSettings) => s.defaultCategory, (o: SiteOptions) => o.defaultCategory)
  }

  function GetDefaultPostFormat(site: Option<Site>): (r: Option<string>)
    ensures site.None? ==> r.None?
    ensures site.Some? && site.value.settings.Some? ==> r == site.value.settings.value.defaultPostFormat
    ensures site.Some? && site.value.settings.None? && site.value.options.Some? ==>
      r == site.value.options.value.defaultPostFormat
    ensures site.Some? && site.value.settings.None? && site.value.options.None? ==> r.None?
  {
    DefaultFrom(site, (s: SiteSettings) => s.defaultPostFormat, (o: SiteOptions) => o.defaultPostFormat)
  }

  /** A `settings` record without the field hides whatever `options` holds. */
  lemma SettingsShadowOptions(site: Site)
    requires site.settings.Some? && site.settings.value.defaultCategory.None?
    requires site.options.Some? && site.options.value.defaultCategory.Some?
    ensures GetDefaultCategory(Some(site)).None?
  {
  }

  // ---------------------------------------------------------------------------
  // Why file modifications are disabled

  const NoWriteAccessClue := "has_no_file_system_write_access"
  const DisallowFileModsClue := "disallow_file_mods"
  const AutomaticUpdaterDisabledClue := "automatic_updater_disabled"
  const CoreUpdateDisabledClue := "wp_auto_update_core_disabled"

  const ModifyFiles := "modifyFiles"
  const AutoupdateFiles := "autoupdateFiles"
  const AutoupdateCore := "autoupdateCore"

  /** The translated reason strings, as tokens. */
  datatype Reason = NoWriteAccess | FileModsDisabled | AutoupdatesDisabled | CoreAutoupdatesDisabled

  /** The clue that produces each reason. */
  function ClueOf(reason: Reason): string
  {
    match reason
    case NoWriteAccess => NoWriteAccessClue
    case FileModsDisabled => DisallowFileModsClue
    case AutoupdatesDisabled => AutomaticUpdaterDisabledClue
    case CoreAutoupdatesDisabled => CoreUpdateDisabledClue
  }

  /** The actions each reason is reported for. */
  predicate AppliesTo(reason: Reason, action: string)
  {
    match reason
    case NoWriteAccess | FileModsDisabled =>
      action == ModifyFiles || action == AutoupdateFiles || action == AutoupdateCore
    case AutoupdatesDisabled => action == AutoupdateFiles || action == AutoupdateCore
    case CoreAutoupdatesDisabled => action == AutoupdateCore
  }

  /** The per-clue callback of the reason list: a reason, or nothing for an inapplicable or unknown clue. */
  function ClueReason(clue: string, action: string): (r: Option<Reason>)
    ensures r.Some? ==> ClueOf(r.value) == clue && AppliesTo(r.value, action)
    ensures r.None? ==> forall x: Reason :: !(ClueOf(x) == clue && AppliesTo(x, action))
  {
    if (action == ModifyFiles || action == AutoupdateFiles || action == AutoupdateCore)
       && clue == NoWriteAccessClue then Some(NoWriteAccess)
    else if (action == ModifyFiles || action == AutoupdateFiles || action == AutoupdateCore)
       && clue == DisallowFileModsClue then Some(FileModsDisabled)
    else if (action == AutoupdateFiles || action == AutoupdateCore)
       && clue == AutomaticUpdaterDisabledClue then Some(AutoupdatesDisabled)
    else if action == AutoupdateCore && clue == CoreUpdateDisabledClue then Some(CoreAutoupdatesDisabled)
    else None
  }

  /** Map every clue to its reason and drop the clues that have none. */
  function ReasonsFor(clues: seq<string>, action: string): (r: seq<Reason>)
    ensures |r| <= |clues|
    ensures forall x :: x in r <==> exists i | 0 <= i < |clues| :: ClueReason(clues[i], action) == Some(x)
    decreases |clues|
  {
    if |clues| == 0 then []
    else
      var rest := ReasonsFor(clues[1..], action);
      match ClueReason(clues[0], action)
      case Some(x) => [x] + rest
      case None => rest
  }

  /** Reasons keep the order of their clues: the list of a concatenation is the concatenation of the lists. */
  lemma {:induction false} ReasonsForAppend(a: seq<string>, b: seq<string>, action: string)
    ensures ReasonsFor(a + b, action) == ReasonsFor(a, action) + ReasonsFor(b, action)
    decreases |a|
  {
    if |a| > 0 {
      assert (a + b)[0] == a[0];
      assert (a + b)[1..] == a[1..] + b;
      ReasonsForAppend(a[1..], b, action);
      match ClueReason(a[0], action)
      case Some(x) =>
        assert ReasonsFor(a + b, action) == [x] + ReasonsFor(a[1..] + b, action);
        assert ReasonsFor(a, action) == [x] + ReasonsFor(a[1..], action);
      case None =>
        assert ReasonsFor(a + b, action) == ReasonsFor(a[1..] + b, action);
        assert ReasonsFor(a, action) == ReasonsFor(a[1..], action);
    } else {
      assert a + b == b;
    }
  }

  /** A clue that no reason is attached to contributes nothing, wherever it stands. */
  lemma UnknownClueDropped(a: seq<string>, clue: string, b: seq<string>, action: string)
    requires clue != NoWriteAccessClue && clue != DisallowFileModsClue
    requires clue != AutomaticUpdaterDisabledClue && clue != CoreUpdateDisabledClue
    ensures ReasonsFor(a + [clue] + b, action) == ReasonsFor(a + b, action)
  {
    ReasonsForAppend(a + [clue], b, action);
    ReasonsForAppend(a, [clue], action);
    ReasonsForAppend(a, b, action);
  }

  /** `action = 'modifyFiles'` as the parameter default. */
  function ActionOrDefault(action: Option<string>): string
  {
    action.GetOr(ModifyFiles)
  }

  /**
   * The reasons file modifications are disabled for `action`, in clue order;
   * no value when the site carries no `file_mod_disabled` list.
   */
  function GetSiteFileModDisableReason(site: Option<Site>, action: Option<string>): (r: Option<seq<Reason>>)
    ensures r.None? <==> site.None? || site.value.options.None? || site.value.options.value.fileModDisabled.None?
    ensures r.Some? ==> |r.value| <= |site.value.options.value.fileModDisabled.value|
    ensures r.Some? ==> forall x: Reason :: x in r.value <==>
      AppliesTo(x, ActionOrDefault(action)) && ClueOf(x) in site.value.options.value.fileModDisabled.value
    ensures r.Some? && ActionOrDefault(action) == ModifyFiles ==>
      forall x | x in r.value :: x == NoWriteAccess || x == FileModsDisabled
  {
    if site.None? || site.value.options.None? || site.value.options.value.fileModDisabled.None? then
      None
    else
      Some(ReasonsFor(site.value.options.value.fileModDisabled.value, ActionOrDefault(action)))
  }

  /** The core-update clue is not a reason to refuse file modifications. */
  lemma ModifyFilesIgnoresCoreClue()
    ensures ReasonsFor([NoWriteAccessClue, CoreUpdateDisabledClue], ModifyFiles) == [NoWriteAccess]
  {
  }

  /** There are no reasons exactly when no clue in the list has one for the action. */
  lemma NoReasonsIffNoClue(clues: seq<string>, action: string)
    ensures ReasonsFor(clues, action) == [] <==>
      forall x: Reason :: AppliesTo(x, action) ==> ClueOf(x) !in clues
  {
  }

  /** No reason list, or an empty one. */
  predicate NoReasons(r: Option<seq<Reason>>)
  {
    r.None? || r.value == []
  }

  // ---------------------------------------------------------------------------
  // Scheme stripping and the main-network check

  const HttpPrefix := "http://"
  const HttpsPrefix := "https://"

  /** `url.replace( /^https?:\/\//, '' )`: one leading scheme removed, if there is one. */
  function StripScheme(url: string): (r: string)
    ensures StartsWith(url, HttpsPrefix) ==> url == HttpsPrefix + r
    ensures StartsWith(url, HttpPrefix) ==> url == HttpPrefix + r
    ensures !StartsWith(url, HttpsPrefix) && !StartsWith(url, HttpPrefix) ==> r == url
  {
    if StartsWith(url, HttpsPrefix) then
      assert url[4] == 's';
      url[|HttpsPrefix|..]
    else if StartsWith(url, HttpPrefix) then
      url[|HttpPrefix|..]
    else
      url
  }

  /** The URL without its initial `http://` or `https://`; no value for an absent or empty URL. */
  function WithoutHttp(url: Option<string>): (r: Option<string>)
    ensures r.None? <==> !NonEmpty(url)
    ensures r.Some? && StartsWith(url.value, HttpsPrefix) ==> url.value == HttpsPrefix + r.value
    ensures r.Some? && StartsWith(url.value, HttpPrefix) ==> url.value == HttpPrefix + r.value
    ensures r.Some? && !StartsWith(url.value, HttpsPrefix) && !StartsWith(url.value, HttpPrefix) ==>
      r.value == url.value
  {
    if !NonEmpty(url) then None else Some(StripScheme(url.value))
  }

  /** Stripping is not idempotent: a nested scheme, or a URL that is only a scheme, changes on a second pass. */
  lemma WithoutHttpNotIdempotent()
    ensures WithoutHttp(WithoutHttp(Some("https://http://x"))) != WithoutHttp(Some("https://http://x"))
    ensures WithoutHttp(WithoutHttp(Some("http://"))) != WithoutHttp(Some("http://"))
  {
  }

  /** A second pass changes nothing when the first left a non-empty URL with no scheme. */
  lemma WithoutHttpStableWithoutScheme(url: Option<string>)
    requires WithoutHttp(url).Some? && WithoutHttp(url).value != ""
    requires !StartsWith(WithoutHttp(url).value, HttpsPrefix) && !StartsWith(WithoutHttp(url).value, HttpPrefix)
    ensures WithoutHttp(WithoutHttp(url)) == WithoutHttp(url)
  {
  }

  /** A URL that differs only in its scheme strips to the same value. */
  lemma SchemesStripAlike(host: string)
    ensures WithoutHttp(Some(HttpsPrefix + host)) == WithoutHttp(Some(HttpPrefix + host)) == Some(host)
  {
  }

  /** `get( site.options, key, null )` for the two network URLs. */
  function UnmappedUrlOf(site: Site): Option<string>
  {
    if site.options.Some? then site.options.value.unmappedUrl else None
  }

  function MainNetworkSiteOf(site: Site): Option<string>
  {
    if site.options.Some? then site.options.value.mainNetworkSite else None
  }

  /** Is this site the main site of its network? */
  function IsMainNetworkSite(site: Option<Site>): (r: bool)
    ensures site.None? ==> !r
    ensures site.Some? && site.value.options.Some? && Truthy(site.value.options.value.isMultiNetwork) ==> !r
    ensures site.Some? && !(site.value.options.Some? && Truthy(site.value.options.value.isMultiNetwork)) ==>
      (site.value.isMultisite == Some(false) ==> r)
      && (site.value.isMultisite == Some(true) ==>
            (r <==> WithoutHttp(UnmappedUrlOf(site.value)).Some?
                    && WithoutHttp(UnmappedUrlOf(site.value)) == WithoutHttp(MainNetworkSiteOf(site.value))))
      && (site.value.isMultisite.None? ==> !r)
  {
    if site.None? then false
    else if site.value.options.Some? && Truthy(site.value.options.value.isMultiNetwork) then false
    else if site.value.isMultisite == Some(false) then true
    else if site.value.isMultisite == Some(true) then
      var unmappedUrl := UnmappedUrlOf(site.value);
      var mainNetworkSite := MainNetworkSiteOf(site.value);
      if !NonEmpty(unmappedUrl) || !NonEmpty(mainNetworkSite) then false
      else StripScheme(unmappedUrl.value) == StripScheme(mainNetworkSite.value)
    else false
  }

  // ---------------------------------------------------------------------------
  // The three-tier file-modification gate

  /** Can files be modified on this site? A missing `options` throws once the earlier checks pass. */
  function CanUpdateFiles(site: Option<Site>): (r: Result<bool, JsError>)
    ensures r.Failure? <==>
      site.Some? && Truthy(site.value.hasMinimumJetpackVersion) && site.value.isMultisite == Some(false)
      && site.value.options.None?
    ensures r == Success(true) <==>
      site.Some? && Truthy(site.value.hasMinimumJetpackVersion) && IsMainNetworkSite(site)
      && site.value.options.Some? && !Truthy(site.value.options.value.isMultiNetwork)
      && !HasClue(site.value.options.value.fileModDisabled, DisallowFileModsClue)
      && !HasClue(site.value.options.value.fileModDisabled, NoWriteAccessClue)
  {
    if site.None? then Success(false)
    else if !Truthy(site.value.hasMinimumJetpackVersion) then Success(false)
    else if !IsMainNetworkSite(site) then Success(false)
    else
      match site.value.options
      case None => Failure(TypeError)
      case Some(options) =>
        if Truthy(options.isMultiNetwork) then Success(false)
        else if options.fileModDisabled.Some?
                && (DisallowFileModsClue in options.fileModDisabled.value
                    || NoWriteAccessClue in options.fileModDisabled.value) then Success(false)
        else Success(true)
  }

  /** Can files be updated automatically? Requires the first tier, then no `automatic_updater_disabled` clue. */
  function CanAutoupdateFiles(site: Option<Site>): (r: Result<bool, JsError>)
    ensures r.Failure? <==> CanUpdateFiles(site).Failure?
    ensures r == Success(true) ==> CanUpdateFiles(site) == Success(true)
    ensures CanUpdateFiles(site) == Success(true) ==>
      (r == Success(true) <==> !HasClue(site.value.options.value.fileModDisabled, AutomaticUpdaterDisabledClue))
  {
    match CanUpdateFiles(site)
    case Failure(e) => Failure(e)
    case Success(allowed) =>
      if !allowed then Success(false)
      else
        match FileModDisabledOf(site)
        case Failure(e) => Failure(e)
        case Success(clues) => Success(!HasClue(clues, AutomaticUpdaterDisabledClue))
  }

  /**
   * Can the core be updated automatically? As written, the second check repeats the
   * `automatic_updater_disabled` clue of the previous tier, so this gate always agrees with it.
   */
  function CanAutoupdateCore(site: Option<Site>): (r: Result<bool, JsError>)
    ensures r == CanAutoupdateFiles(site)
  {
    match CanAutoupdateFiles(site)
    case Failure(e) => Failure(e)
    case Success(allowed) =>
      if !allowed then Success(false)
      else
        match FileModDisabledOf(site)
        case Failure(e) => Failure(e)
        case Success(clues) => Success(!HasClue(clues, AutomaticUpdaterDisabledClue))
  }

  /** The first gate refuses on its clues exactly when there is a reason not to modify files. */
  lemma UpdateGateAgreesWithReasons(site: Site)
    requires Truthy(site.hasMinimumJetpackVersion) && IsMainNetworkSite(Some(site))
    requires site.options.Some? && !Truthy(site.options.value.isMultiNetwork)
    ensures CanUpdateFiles(Some(site)) == Success(true) <==>
      NoReasons(GetSiteFileModDisableReason(Some(site), Some(ModifyFiles)))
  {
    var fmd := site.options.value.fileModDisabled;
    if fmd.Some? {
      NoReasonsIffNoClue(fmd.value, ModifyFiles);
      assert AppliesTo(NoWriteAccess, ModifyFiles) && AppliesTo(FileModsDisabled, ModifyFiles);
    }
  }

  /** Once files can be modified, the second gate refuses exactly when there is a reason not to autoupdate them. */
  lemma AutoupdateGateAgreesWithReasons(site: Site)
    requires CanUpdateFiles(Some(site)) == Success(true)
    ensures CanAutoupdateFiles(Some(site)) == Success(true) <==>
      NoReasons(GetSiteFileModDisableReason(Some(site), Some(AutoupdateFiles)))
  {
    var fmd := site.options.value.fileModDisabled;
    if fmd.Some? {
      NoReasonsIffNoClue(fmd.value, AutoupdateFiles);
      assert AppliesTo(AutoupdatesDisabled, AutoupdateFiles);
      forall x: Reason | AppliesTo(x, AutoupdateFiles) && x != AutoupdatesDisabled
        ensures ClueOf(x) !in fmd.value
      {
      }
    }
  }

  // ---------------------------------------------------------------------------
  // The core-update gate as evidently intended

  /** A site that reports a core-update reason while the as-written core gate lets autoupdates through. */
  const CoreOnlyDisabledSite := Site(
    None, None, None, None,
    Some(SiteOptions(None, None, None, Some([CoreUpdateDisabledClue]), None, None, None, None, None)),
    None, Some(false), Some(true), Some(true))

  /** The as-written core gate ignores `wp_auto_update_core_disabled`, which the reason list reports. */
  lemma CanAutoupdateCoreIgnoresCoreClue()
    ensures CanAutoupdateCore(Some(CoreOnlyDisabledSite)) == Success(true)
    ensures GetSiteFileModDisableReason(Some(CoreOnlyDisabledSite), Some(AutoupdateCore))
            == Some([CoreAutoupdatesDisabled])
  {
    assert ReasonsFor([CoreUpdateDisabledClue], AutoupdateCore) == [CoreAutoupdatesDisabled] by {
      assert [CoreUpdateDisabledClue][1..] == [];
    }
  }

  /** The core gate checking its own clue, `wp_auto_update_core_disabled`, after the file-autoupdate tier. */
  function CanAutoupdateCoreIntended(site: Option<Site>): (r: Result<bool, JsError>)
    ensures r.Failure? <==> CanUpdateFiles(site).Failure?
    ensures r == Success(true) ==> CanAutoupdateFiles(site) == Success(true)
    ensures CanAutoupdateFiles(site) == Success(true) ==>
      (r == Success(true) <==> !HasClue(site.value.options.value.fileModDisabled, CoreUpdateDisabledClue))
  {
    match CanAutoupdateFiles(site)
    case Failure(e) => Failure(e)
    case Success(allowed) =>
      if !allowed then Success(false)
      else
        match FileModDisabledOf(site)
        case Failure(e) => Failure(e)
        case Success(clues) => Success(!HasClue(clues, CoreUpdateDisabledClue))
  }

  /** Once files can be modified, the intended core gate refuses exactly when there is a reason not to autoupdate the core. */
  lemma CoreGateIntendedAgreesWithReasons(site: Site)
    requires CanUpdateFiles(Some(site)) == Success(true)
    ensures CanAutoupdateCoreIntended(Some(site)) == Success(true) <==>
      NoReasons(GetSiteFileModDisableReason(Some(site), Some(AutoupdateCore)))
  {
    var fmd := site.options.value.fileModDisabled;
    if fmd.Some? {
      NoReasonsIffNoClue(fmd.value, AutoupdateCore);
      assert AppliesTo(AutoupdatesDisabled, AutoupdateCore) && AppliesTo(CoreAutoupdatesDisabled, AutoupdateCore);
    }
  }

  // ---------------------------------------------------------------------------
  // Custom domains

  /**
   * Does the site's URL differ from its unmapped URL once schemes are stripped? The guard
   * in front of the comparison never returns: an absent site throws while it is evaluated,
   * and an absent `options` throws when the unmapped URL is read.
   */
  function HasCustomDomain(site: Option<Site>): (r: Result<bool, JsError>)
    ensures r.Failure? <==> site.None? || site.value.options.None?
    ensures r.Success? ==>
      (r.value <==> WithoutHttp(site.value.url) != WithoutHttp(site.value.options.value.unmappedUrl))
    ensures r.Success? && !NonEmpty(site.value.url) && !NonEmpty(site.value.options.value.unmappedUrl) ==> !r.value
  {
    match site
    case None => Failure(TypeError)
    case Some(s) =>
      match s.options
      case None => Failure(TypeError)
      case Some(options) => Success(WithoutHttp(s.url) != WithoutHttp(options.unmappedUrl))
  }

  /** Serving the unmapped address under a different scheme is not a custom domain. */
  lemma SchemeChangeIsNotCustomDomain(site: Site, host: string)
    requires site.url == Some(HttpsPrefix + host)
    requires site.options.Some? && site.options.value.unmappedUrl == Some(HttpPrefix + host)
    ensures HasCustomDomain(Some(site)) == Success(false)
  {
  }

  /** An absent site makes the guard itself throw instead of returning its null. */
  lemma HasCustomDomainThrowsOnAbsentSite()
    ensures HasCustomDomain(None) == Failure(TypeError)
  {
  }

  /** The guard short-circuiting on an absent site: no value for it, otherwise as written. */
  function HasCustomDomainGuarded(site: Option<Site>): (r: Result<Option<bool>, JsError>)
    ensures site.None? ==> r == Success(None)
    ensures site.Some? && HasCustomDomain(site).Success? ==> r == Success(Some(HasCustomDomain(site).value))
    ensures r.Failure? <==> site.Some? && site.value.options.None?
  {
    if site.None? then Success(None)
    else
      match HasCustomDomain(site)
      case Failure(e) => Failure(e)
      case Success(b) => Success(Some(b))
  }
}
