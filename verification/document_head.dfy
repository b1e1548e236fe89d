/**
 * The document-title middleware: on a title, unread-count or selected-site action it
 * formats the page title from the store's snapshot, writes it to the document only when
 * it changed, and forwards the action unchanged.
 */
module DocumentHead {
  import opened Wrappers
  import opened Text
  import opened Sites

  const ProductName := "WordPress.com"
  const ProductSuffix := " \U{2014} " + ProductName
  const SiteSeparator := " \U{2039} "

  /** The UI groups in which the selected site's name is part of the title. */
  const SiteSpecificGroups: seq<string> := ["sites", "editor"]

  function ShowsSite(groupName: string): (r: bool)
    ensures r <==> groupName == "sites" || groupName == "editor"
  {
    groupName in SiteSpecificGroups
  }

  /** JavaScript's `'' + v` for an optional string: an absent value renders as `undefined`. */
  function Render(v: Option<string>): string
  {
    match v
    case Some(s) => s
    case None => "undefined"
  }

  /** The site's display name: `name` when it is non-empty, otherwise `domain`. */
  function SiteName(site: Site): (r: Option<string>)
    ensures NonEmpty(site.name) ==> r == site.name
    ensures !NonEmpty(site.name) ==> r == site.domain
  {
    if NonEmpty(site.name) then site.name else site.domain
  }

  /** The title followed by the separator and the site name, or the site name alone after an empty title. */
  function AppendSite(title: string, site: Site): (r: Option<string>)
    ensures title != "" ==>
      (r.Some? && |title| <= |r.value| && r.value[..|title|] == title
       && r.value[|title|..] == SiteSeparator + Render(SiteName(site)))
    ensures title == "" ==> r == SiteName(site)
  {
    if title != "" then
      Some(title + SiteSeparator + Render(SiteName(site)))
    else
      SiteName(site)
  }

  /** Truthiness of the unread count: present and non-zero. */
  predicate HasUnread(unreadCount: Option<nat>)
  {
    unreadCount.Some? && unreadCount.value != 0
  }

  /** `"(N) "` for a non-zero unread count, nothing otherwise. */
  function UnreadPrefix(unreadCount: Option<nat>): (r: string)
    ensures r == "" <==> !HasUnread(unreadCount)
    ensures HasUnread(unreadCount) ==>
      |r| >= 4 && r[0] == '(' && r[|r| - 2..] == ") " && AllDigits(r[1..|r| - 2])
      && DigitsValue(r[1..|r| - 2]) == unreadCount.value
  {
    if HasUnread(unreadCount) then
      var digits := DecimalString(unreadCount.value);
      DecimalRoundTrip(unreadCount.value);
      assert ("(" + digits + ") ")[1..|digits| + 1] == digits;
      "(" + digits + ") "
    else
      ""
  }

  /** The title before entity decoding and the product suffix; absent when the site name is. */
  function PageTitle(title: string, unreadCount: Option<nat>, site: Option<Site>): (r: Option<string>)
    ensures NonEmpty(r) <==> title != "" || HasUnread(unreadCount) || (site.Some? && NonEmpty(SiteName(site.value)))
    ensures title != "" || HasUnread(unreadCount) ==> r.Some? && StartsWith(r.value, UnreadPrefix(unreadCount) + title)
    ensures site.None? ==> r == Some(UnreadPrefix(unreadCount) + title)
    ensures site.Some? && (title != "" || HasUnread(unreadCount)) ==>
      r == Some(UnreadPrefix(unreadCount) + title + SiteSeparator + Render(SiteName(site.value)))
    ensures site.Some? && title == "" && !HasUnread(unreadCount) ==> r == SiteName(site.value)
  {
    var counted := UnreadPrefix(unreadCount) + title;
    if site.Some? then AppendSite(counted, site.value) else Some(counted)
  }

  /**
   * The formatted page title: the decoded page title followed by the product suffix, or the
   * bare product name when there is no page title.
   */
  function GetFormattedTitle(title: string, unreadCount: Option<nat>, site: Option<Site>,
                             decode: string -> string): (r: string)
    ensures NonEmpty(PageTitle(title, unreadCount, site)) ==>
      r == decode(PageTitle(title, unreadCount, site).value) + ProductSuffix
    ensures r == ProductName <==> !NonEmpty(PageTitle(title, unreadCount, site))
    ensures r == ProductName <==>
      title == "" && !HasUnread(unreadCount) && (site.None? || !NonEmpty(SiteName(site.value)))
  {
    var page := PageTitle(title, unreadCount, site);
    if NonEmpty(page) then
      decode(page.value) + ProductSuffix
    else
      ProductName
  }

  /** Nothing to show gives exactly the product name. */
  lemma EmptyTitleIsProductName(unreadCount: Option<nat>, decode: string -> string)
    requires !HasUnread(unreadCount)
    ensures GetFormattedTitle("", unreadCount, None, decode) == "WordPress.com"
  {
  }

  /** Any page title ends up decoded and followed by the product suffix. */
  lemma FormattedTitleEndsWithSuffix(title: string, unreadCount: Option<nat>, site: Option<Site>,
                                     decode: string -> string)
    requires NonEmpty(PageTitle(title, unreadCount, site))
    ensures var r := GetFormattedTitle(title, unreadCount, site, decode);
      |r| >= |ProductSuffix| && r[|r| - |ProductSuffix|..] == ProductSuffix
  {
  }

  /** A non-zero unread count opens the page title with `"(N) "`. */
  lemma UnreadPrefixLeads(title: string, n: nat, site: Option<Site>)
    requires n != 0
    ensures var page := PageTitle(title, Some(n), site);
      page.Some? && StartsWith(page.value, "(" + DecimalString(n) + ") ")
  {
  }

  /** Without unread items the count plays no part in the page title. */
  lemma NoUnreadNoPrefix(title: string, unreadCount: Option<nat>, site: Option<Site>)
    requires !HasUnread(unreadCount)
    ensures PageTitle(title, unreadCount, site) == PageTitle(title, None, site)
  {
  }

  /** Where the digits and the closing parenthesis of `"(N) "` sit. */
  lemma CountPrefixLayout(d: string, rest: string)
    ensures var s := "(" + d + ") " + rest;
      |s| > 1 + |d| && s[1 + |d|] == ')' && s[1..1 + |d|] == d
      && forall k | 0 <= k < |d| :: s[1 + k] == d[k]
  {
  }

  /** The digits rendered in `"(N) "` end at the first closing parenthesis. */
  lemma CountPrefixDigits(d1: string, d2: string, rest1: string, rest2: string)
    requires |d1| > 0 && AllDigits(d1) && |d2| > 0 && AllDigits(d2)
    requires "(" + d1 + ") " + rest1 == "(" + d2 + ") " + rest2
    ensures d1 == d2
  {
    CountPrefixLayout(d1, rest1);
    CountPrefixLayout(d2, rest2);
    if |d1| < |d2| {
      assert false;
    } else if |d2| < |d1| {
      assert false;
    }
  }

  /** What follows the count prefix in the page title. */
  function CountTail(title: string, site: Option<Site>): string
  {
    if site.Some? then title + SiteSeparator + Render(SiteName(site.value)) else title
  }

  /** With unread items the page title is the count prefix followed by its tail. */
  lemma PageTitleWithCount(title: string, n: nat, site: Option<Site>)
    requires n != 0
    ensures PageTitle(title, Some(n), site) == Some("(" + DecimalString(n) + ") " + CountTail(title, site))
  {
    var p := "(" + DecimalString(n) + ") ";
    assert UnreadPrefix(Some(n)) == p;
    if site.Some? {
      assert p + title + SiteSeparator + Render(SiteName(site.value)) == p + CountTail(title, site);
    }
  }

  /** The unread count can be read back from the page title it produced. */
  lemma UnreadCountRecoverable(title1: string, title2: string, m: nat, n: nat, site: Option<Site>)
    requires m != 0 && n != 0
    requires PageTitle(title1, Some(m), site) == PageTitle(title2, Some(n), site)
    ensures m == n
  {
    PageTitleWithCount(title1, m, site);
    PageTitleWithCount(title2, n, site);
    CountPrefixDigits(DecimalString(m), DecimalString(n), CountTail(title1, site), CountTail(title2, site));
    DecimalInjective(m, n);
  }

  // ---------------------------------------------------------------------------
  // The middleware

  datatype Action =
    | TitleSet(title: string)
    | UnreadCountSet(count: Option<nat>)
    | SelectedSiteSet(siteId: Option<SiteId>)
    | OtherAction  // any action type other than the three handled ones

  /** The snapshot the middleware reads through its selectors. */
  datatype StoreState = StoreState(
    title: string,
    unreadCount: Option<nat>,
    groupName: string,
    selectedSite: Option<Site>,
    sites: map<SiteId, Site>)

  /**
   * The document's title slot, with a count of the writes made to it. Reading the slot
   * gives `readBack` of the stored value: a browser strips and collapses whitespace there.
   */
  datatype Document = Document(title: string, writes: nat)

  /** The document after the middleware ran, and the action it handed to `next`. */
  datatype Dispatched = Dispatched(document: Document, forwarded: Action)

  /** `getSite( state, siteId )`. */
  function GetSite(state: StoreState, siteId: Option<SiteId>): (r: Option<Site>)
    ensures r.Some? <==> siteId.Some? && siteId.value in state.sites
    ensures r.Some? ==> r.value == state.sites[siteId.value]
  {
    if siteId.Some? && siteId.value in state.sites then Some(state.sites[siteId.value]) else None
  }

  /** The site for the title: the selected one, but only inside a site-specific group. */
  function GroupSite(state: StoreState): (r: Option<Site>)
    ensures ShowsSite(state.groupName) ==> r == state.selectedSite
    ensures !ShowsSite(state.groupName) ==> r.None?
  {
    if ShowsSite(state.groupName) then state.selectedSite else None
  }

  /** The title an action calls for, or none for actions the middleware ignores. */
  function TitleFor(state: StoreState, action: Action, decode: string -> string): (r: Option<string>)
    ensures r.None? <==> action.OtherAction?
    ensures action.TitleSet? ==>
      r == Some(GetFormattedTitle(action.title, state.unreadCount, GroupSite(state), decode))
    ensures action.UnreadCountSet? ==>
      r == Some(GetFormattedTitle(state.title, action.count, GroupSite(state), decode))
    ensures action.SelectedSiteSet? ==>
      r == Some(GetFormattedTitle(state.title, state.unreadCount, GetSite(state, action.siteId), decode))
  {
    match action
    case TitleSet(title) =>
      Some(GetFormattedTitle(title, state.unreadCount, GroupSite(state), decode))
    case UnreadCountSet(count) =>
      Some(GetFormattedTitle(state.title, count, GroupSite(state), decode))
    case SelectedSiteSet(siteId) =>
      Some(GetFormattedTitle(state.title, state.unreadCount, GetSite(state, siteId), decode))
    case OtherAction => None
  }

  /** Assigning `document.title`, skipped when reading the slot already gives the value. */
  function WriteTitle(doc: Document, title: string, readBack: string -> string): (d: Document)
    ensures title == readBack(doc.title) ==> d == doc
    ensures title != readBack(doc.title) ==> d.title == title && d.writes == doc.writes + 1
  {
    if title != readBack(doc.title) then Document(title, doc.writes + 1) else doc
  }

  /** One pass of the middleware over an action. */
  function Middleware(state: StoreState, doc: Document, action: Action, decode: string -> string,
                      readBack: string -> string): (r: Dispatched)
    ensures r.forwarded == action
    ensures action.OtherAction? ==> r.document == doc
    ensures !action.OtherAction? ==>
      r.document.title == TitleFor(state, action, decode).value
      || (r.document == doc && readBack(doc.title) == TitleFor(state, action, decode).value)
    ensures !action.OtherAction? ==>
      (r.document == doc <==> readBack(doc.title) == TitleFor(state, action, decode).value)
    ensures r.document.writes <= doc.writes + 1
    ensures r.document.writes == doc.writes <==> r.document == doc
  {
    match TitleFor(state, action, decode)
    case None => Dispatched(doc, action)
    case Some(title) => Dispatched(WriteTitle(doc, title, readBack), action)
  }

  /**
   * When the slot reads back what was written, handling the same action twice on an
   * unchanged snapshot writes at most once: the second pass writes nothing.
   */
  lemma RepeatedActionWritesOnce(state: StoreState, doc: Document, action: Action,
                                 decode: string -> string, readBack: string -> string)
    requires action.OtherAction? || readBack(TitleFor(state, action, decode).value) == TitleFor(state, action, decode).value
    ensures var first := Middleware(state, doc, action, decode, readBack);
      var second := Middleware(state, first.document, action, decode, readBack);
      second.document == first.document && second.document.writes <= doc.writes + 1
  {
  }

  /** A title the slot does not read back verbatim is written again on every repeat of its action. */
  lemma UnstableTitleRewritten(state: StoreState, doc: Document, action: Action,
                               decode: string -> string, readBack: string -> string)
    requires !action.OtherAction?
    requires forall t :: readBack(readBack(t)) == readBack(t)
    requires readBack(TitleFor(state, action, decode).value) != TitleFor(state, action, decode).value
    ensures var first := Middleware(state, doc, action, decode, readBack);
      var second := Middleware(state, first.document, action, decode, readBack);
      second.document.writes == first.document.writes + 1 == doc.writes + 2
  {
  }

  /** The selected-site action looks its site up by id, whatever group is showing. */
  lemma SelectedSiteIgnoresGroup(state: StoreState, groupName: string, siteId: Option<SiteId>,
                                 decode: string -> string)
    ensures TitleFor(state.(groupName := groupName), SelectedSiteSet(siteId), decode)
            == TitleFor(state, SelectedSiteSet(siteId), decode)
  {
  }

  /** Outside the site-specific groups the title and count actions never mention a site. */
  lemma NoSiteOutsideSiteGroups(state: StoreState, action: Action, decode: string -> string)
    requires action.TitleSet? || action.UnreadCountSet?
    requires !ShowsSite(state.groupName)
    ensures TitleFor(state, action, decode) == TitleFor(state.(selectedSite := None), action, decode)
  {
  }

  /** Three unread items, the title "Reader" and the site "Foo" in the sites group. */
  lemma ReaderTitleExample(decode: string -> string, site: Site)
    requires site.name == Some("Foo")
    ensures TitleFor(StoreState("Reader", Some(3), "sites", Some(site), map[]), TitleSet("Reader"), decode)
            == Some(decode("(3) Reader \U{2039} Foo") + " \U{2014} WordPress.com")
  {
    assert DecimalString(3) == "3";
    assert UnreadPrefix(Some(3)) + "Reader" == "(3) Reader";
    assert SiteName(site) == Some("Foo");
    var page := "(3) Reader" + SiteSeparator + "Foo";
    assert page == "(3) Reader \U{2039} Foo";
    assert PageTitle("Reader", Some(3), Some(site)) == Some(page);
    assert NonEmpty(Some(page));
    var state := StoreState("Reader", Some(3), "sites", Some(site), map[]);
    assert GroupSite(state) == Some(site);
    assert GetFormattedTitle("Reader", Some(3), Some(site), decode) == decode(page) + ProductSuffix;
    assert ProductSuffix == " \U{2014} WordPress.com";
  }
}
