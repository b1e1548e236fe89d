# Site utilities and the document-title middleware, verified in Dafny

This project models two pure-logic pieces of the WordPress.com web client.

* The site utilities (`client/lib/site/utils.js`) answer configuration questions about a site record. The record may be absent or only partly filled in. They cover capability and permalink checks, the timezone and offset getters, and the posting defaults, which prefer `settings` over `options`. They also cover the reasons file modifications are disabled, the three-tier file-modification gate (update files, autoupdate files, autoupdate core), the main-network check, and scheme stripping of URLs with the custom-domain test built on it.
* The document-head middleware (`client/state/document-head/middleware.js`) reacts to three actions: title set, unread count set and selected site set. On each it formats the page title as `(N) title ‹ site — WordPress.com`, or as the bare `WordPress.com` when nothing precedes the suffix. It writes the document title only when the value changes, and it forwards every action unchanged.

Layout:

* `wrappers.dfy` has `Option` and `Result`.
* `text.dfy` has prefixes, substring search, and decimal rendering of a number together with its parse-back.
* `sites.dfy` has the site record, the JavaScript truthiness helpers and the `TypeError` outcome.
* `site_utils.dfy` models `utils.js`.
* `document_head.dfy` models `middleware.js`.

Modelling choices:

* Every field of the site record is an `Option`. A missing site is `None`.
* Where the JavaScript reads a property of `undefined` and throws, the model returns `Failure(TypeError)`. This happens in `canUpdateFiles` at line 109: `options` is missing but `is_multisite` is exactly `false`. It also happens in `hasCustomDomain` for a missing site or missing `options`.
* The translated reason strings are the tokens of `Reason`. `decodeEntities` is the function parameter `decode`, so every title property holds for any decoder.
* The Redux selectors are the fields of `StoreState`. `getSite` is a map lookup. The document is a record: its stored title plus a count of writes made to it.
* `withoutHttp` is not idempotent: `"https://http://x"` and `"http://"` change on a second pass, as `WithoutHttpNotIdempotent` shows.
* Reading `document.title` back is the function parameter `readBack`. A browser strips and collapses whitespace in that getter, so the write-suppression compare at lines 34, 46 and 57 is made against the read-back value, not the stored one.

## Model

| member | source | states |
|---|---|---|
| SiteUtils.UserCan | client/lib/site/utils.js:7-9 | false for a missing site or capability map; otherwise true exactly when the capability is granted |
| SiteUtils.UserCanGrant | client/lib/site/utils.js:7-9 | a property of the lookup only: each capability is read from its own map entry, so granting one makes it available and leaves the others unchanged |
| SiteUtils.IsJetpack | client/lib/site/utils.js:172-174 | true exactly when the site is present and its jetpack flag is set |
| SiteUtils.Timezone | client/lib/site/utils.js:25-27 | no value without a site or options; otherwise the options' timezone |
| SiteUtils.GmtOffset | client/lib/site/utils.js:35-37 | no value without a site or options; otherwise the options' gmt offset |
| SiteUtils.OptionGettersReadOnlyOptions | client/lib/site/utils.js:25-37 | two sites with the same options give the same timezone and offset |
| Text.Contains | client/lib/site/utils.js:16 | the substring search is true exactly when the pattern occurs at some index |
| SiteUtils.PostnameSlashIsOptional | client/lib/site/utils.js:16 | the permalink regex, with its optional trailing slash, matches exactly when `/%postname%` occurs |
| SiteUtils.IsPermalinkEditable | client/lib/site/utils.js:11-17 | false without a site, options or permalink structure; otherwise true exactly when the regex matches the structure |
| SiteUtils.FirstApplicable | client/lib/site/utils.js:39-51 | an ordered rule list yields the result of its first applicable rule, and no value when none applies |
| SiteUtils.DefaultFromFollowsRules | client/lib/site/utils.js:39-65 | the getters' nested conditionals choose the same value as the rule list: missing site, then settings, then options |
| SiteUtils.GetDefaultCategory | client/lib/site/utils.js:39-51 | missing site gives no value; present settings decide even without the field; options are read only without settings |
| SiteUtils.GetDefaultPostFormat | client/lib/site/utils.js:53-65 | the same settings-over-options precedence for the default post format |
| SiteUtils.SettingsShadowOptions | client/lib/site/utils.js:44-46 | settings lacking the category hide a category held in options |
| SiteUtils.ClueReason | client/lib/site/utils.js:72-91 | a clue yields a reason only when it is that reason's clue and the reason applies to the action; otherwise no reason exists for it |
| SiteUtils.ReasonsFor | client/lib/site/utils.js:72-92 | no more reasons than clues; a reason is listed exactly when some clue produces it for the action |
| SiteUtils.ReasonsForAppend | client/lib/site/utils.js:72-92 | reasons keep clue order: the list for a concatenation is the concatenation of the lists |
| SiteUtils.UnknownClueDropped | client/lib/site/utils.js:91-92 | a clue with no reason contributes nothing, wherever it stands |
| SiteUtils.NoReasonsIffNoClue | client/lib/site/utils.js:72-92 | the list is empty exactly when no clue of a reason applicable to the action is present |
| SiteUtils.GetSiteFileModDisableReason | client/lib/site/utils.js:67-93 | no value exactly when site, options or the clue list is missing; otherwise at most one reason per clue, and a reason is listed exactly when it applies to the action and its clue is in the list; for modifyFiles only the write-access and file-mods reasons |
| SiteUtils.ModifyFilesIgnoresCoreClue | client/lib/site/utils.js:72-91 | for modifyFiles, the write-access and core-update clues give exactly the write-access reason |
| SiteUtils.StripScheme | client/lib/site/utils.js:186 | one leading `https://` or `http://` removed, so prefix plus result is the input; input unchanged without one |
| SiteUtils.WithoutHttp | client/lib/site/utils.js:181-187 | no value exactly for a missing or empty URL; otherwise the URL minus one leading scheme, unchanged when it has none |
| SiteUtils.WithoutHttpNotIdempotent | client/lib/site/utils.js:181-187 | a nested scheme, or a URL that is only a scheme, changes on a second pass |
| SiteUtils.WithoutHttpStableWithoutScheme | client/lib/site/utils.js:181-187 | a second pass changes nothing once the result is non-empty and has no scheme |
| SiteUtils.SchemesStripAlike | client/lib/site/utils.js:186 | `https://h` and `http://h` both strip to `h` |
| SiteUtils.IsMainNetworkSite | client/lib/site/utils.js:146-170 | false without a site or with multi-network set; true for a non-multisite; for a multisite, true exactly when the unmapped and main-network URLs are non-empty and strip to the same value; false otherwise |
| Sites.FileModDisabledOf | client/lib/site/utils.js:127 | reading the clue list throws exactly when the site or its options are missing |
| SiteUtils.CanUpdateFiles | client/lib/site/utils.js:95-120 | throws exactly when the earlier checks pass on a non-multisite without options; true exactly when the site is present, meets the minimum Jetpack version, is its network's main site, has options without multi-network, and carries neither blocking clue |
| SiteUtils.UpdateGateAgreesWithReasons | client/lib/site/utils.js:95-120 | once the site checks pass, the first gate opens exactly when modifyFiles has no reasons |
| SiteUtils.CanAutoupdateFiles | client/lib/site/utils.js:122-132 | throws exactly when the first gate throws; opens only if the first gate does, and then exactly without the automatic-updater clue |
| SiteUtils.AutoupdateGateAgreesWithReasons | client/lib/site/utils.js:122-132 | after the first gate opens, the second opens exactly when autoupdateFiles has no reasons |
| SiteUtils.CanAutoupdateCore | client/lib/site/utils.js:134-144 | equals the file-autoupdate gate for every site, so opening it implies both earlier gates |
| SiteUtils.CanAutoupdateCoreIgnoresCoreClue | client/lib/site/utils.js:139-141 | a site whose only clue is the core-update clue passes the core gate, yet its autoupdateCore reason list names that clue |
| SiteUtils.CanAutoupdateCoreIntended | client/lib/site/utils.js:134-144 | throws exactly when the first gate throws; opens only after the file-autoupdate gate, and then exactly without the core-update clue |
| SiteUtils.CoreGateIntendedAgreesWithReasons | client/lib/site/utils.js:134-144 | after the first gate opens, the intended core gate opens exactly when autoupdateCore has no reasons |
| SiteUtils.HasCustomDomain | client/lib/site/utils.js:194-203 | throws exactly for a missing site or options; otherwise true exactly when the stripped URL and unmapped URL differ; false when both are missing |
| SiteUtils.SchemeChangeIsNotCustomDomain | client/lib/site/utils.js:199-202 | a URL that differs from the unmapped URL only in scheme is no custom domain |
| SiteUtils.HasCustomDomainThrowsOnAbsentSite | client/lib/site/utils.js:195-197 | for a missing site the guard throws instead of returning null |
| SiteUtils.HasCustomDomainGuarded | client/lib/site/utils.js:194-203 | null for a missing site, the as-written answer for a present one, and a throw only for a present site without options |
| DocumentHead.ShowsSite | client/state/document-head/middleware.js:15 | the allow-list admits exactly the `sites` and `editor` groups |
| DocumentHead.SiteName | client/state/document-head/middleware.js:89-95 | the site's name when it is non-empty, otherwise its domain |
| DocumentHead.AppendSite | client/state/document-head/middleware.js:88-102 | a non-empty title is kept as the prefix, followed by the separator and the site name; after an empty title, the site name alone |
| Text.DecimalString | client/state/document-head/middleware.js:70 | the count renders as a non-empty string of digits that starts with 0 only for zero |
| Text.DecimalRoundTrip | client/state/document-head/middleware.js:70 | reading the rendered digits back gives the count |
| DocumentHead.UnreadPrefix | client/state/document-head/middleware.js:69-71 | empty exactly when the count is missing or zero; otherwise `(`, digits that read back as the count, then `) ` |
| DocumentHead.PageTitle | client/state/document-head/middleware.js:67-77 | non-empty exactly when the title is non-empty, there are unread items, or a site with a non-empty display name is given; without a site it is the count prefix and the title; with a site, a non-empty prefix-and-title is followed by ` ‹ ` and the site name, and an empty one gives the site name alone |
| DocumentHead.GetFormattedTitle | client/state/document-head/middleware.js:66-86 | a non-empty page title gives its decoded form plus ` — WordPress.com`; the bare `WordPress.com` appears exactly when the title is empty, there are no unread items, and no site with a non-empty display name is given |
| DocumentHead.EmptyTitleIsProductName | client/state/document-head/middleware.js:66-86 | empty title, no unread items and no site give exactly `WordPress.com` |
| DocumentHead.FormattedTitleEndsWithSuffix | client/state/document-head/middleware.js:79-80 | with a page title, the result ends with ` — WordPress.com` |
| DocumentHead.UnreadPrefixLeads | client/state/document-head/middleware.js:69-73 | a non-zero count opens the page title with `(N) ` |
| DocumentHead.NoUnreadNoPrefix | client/state/document-head/middleware.js:69-71 | a missing or zero count plays no part in the page title |
| DocumentHead.UnreadCountRecoverable | client/state/document-head/middleware.js:69-73 | equal page titles built with non-zero counts have equal counts |
| DocumentHead.GetSite | client/state/document-head/middleware.js:55 | a site exactly when the id is given and known, and then the stored one |
| DocumentHead.GroupSite | client/state/document-head/middleware.js:31-33 | the selected site inside an allow-listed group, no site elsewhere |
| DocumentHead.TitleFor | client/state/document-head/middleware.js:26-61 | no title exactly for other actions; title set, count set and site set each format from their own payload and the snapshot's other fields |
| DocumentHead.WriteTitle | client/state/document-head/middleware.js:34-36 | a value equal to what the slot reads back leaves the document as it was; any other value is stored at the cost of one write |
| DocumentHead.Middleware | client/state/document-head/middleware.js:24-64 | the action is forwarded unchanged; other actions leave the document alone; for the three kinds the formatted title is stored, or the slot already reads back as it, and the document changes exactly when it does not; at most one write |
| DocumentHead.RepeatedActionWritesOnce | client/state/document-head/middleware.js:24-64 | when the slot reads the formatted title back verbatim, a repeated action on an unchanged snapshot writes nothing, so two passes write at most once |
| DocumentHead.UnstableTitleRewritten | client/state/document-head/middleware.js:34-36 | when the read-back of the formatted title differs from it (an idempotent normalisation such as whitespace collapsing), every repeat writes again |
| DocumentHead.SelectedSiteIgnoresGroup | client/state/document-head/middleware.js:51-56 | the selected-site title does not depend on the group name |
| DocumentHead.NoSiteOutsideSiteGroups | client/state/document-head/middleware.js:27-49 | outside the allow-listed groups, the selected site does not affect the title and count actions |
| DocumentHead.ReaderTitleExample | client/state/document-head/middleware.js:27-37 | title `Reader`, three unread items and site `Foo` in `sites` give the decoded `(3) Reader ‹ Foo` plus ` — WordPress.com` |

## Left out

- `client/my-sites/upgrades/checkout-thank-you/custom-domain-purchase-detail.jsx`: view code that only branches on the custom-domain answer.
- Translation: `i18n.translate` is replaced by the reason tokens of `Reason`.
- `decodeEntities`: it is not part of this model. It is an arbitrary `string -> string` parameter.
- The Redux store, its selectors and its reducers: the snapshot is a `StoreState` value read before `next` runs. The value `next` returns is not modelled; only the forwarded action is.
- The `this.`-bound calls inside the gates are modelled as direct calls.
- JavaScript truthiness beyond the field types chosen. Flags are booleans, the capability map holds booleans, the unread count is a natural number and titles are strings. Non-string titles, `NaN` counts and flags of other types are not modelled.
- `gmt_offset` follows its doc comment and is a string.
- Text.DecimalString: unread counts of 10^21 or more are printed by JavaScript in exponent form (`1e+21`), and counts above 2^53 are not exact doubles; neither is modelled, the renderer writes every natural number in plain decimal.
- The browser's whitespace normalisation of `document.title` is not spelled out; it is the `readBack` parameter, and the write-suppression lemmas state what they assume of it.
- The action argument of `getSiteFileModDisableReason` is a string; `None` stands for an omitted argument, which defaults to `modifyFiles`.
- An absent `domain` renders as `undefined` when concatenated after a title, as `String(undefined)` does. After an empty title the absent value itself is returned, and it then counts as no page title.

## Findings

| source | as written | input that shows it | evidently intended | confidence | as-written member | corrected member |
|---|---|---|---|---|---|---|
| client/lib/site/utils.js:139-141 | the core-autoupdate gate rechecks `automatic_updater_disabled`, the clue the previous tier already checked | a main-network, non-multisite site meeting the Jetpack minimum whose only clue is `wp_auto_update_core_disabled`: the core gate opens, yet the autoupdateCore reasons name the core-update clue | check `wp_auto_update_core_disabled`, so the gate opens exactly when autoupdateCore has no reasons | not executed; the duplicate check is certain, the intent is inferred from the reason table at lines 87-89 | SiteUtils.CanAutoupdateCoreIgnoresCoreClue | SiteUtils.CanAutoupdateCoreIntended |
| client/lib/site/utils.js:195-197 | the guard `! site && ! site.URL && …` reads `site.URL` when `site` is missing, so it throws and its `return null` is unreachable | `hasCustomDomain( null )` throws a TypeError | return null for a missing site | not executed; the throw is certain, the intended guard is inferred from the `?Boolean` return type | SiteUtils.HasCustomDomainThrowsOnAbsentSite | SiteUtils.HasCustomDomainGuarded |
