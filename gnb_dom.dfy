/**
 * The navigation bar's view of the page, as a value: the classes and visibility the
 * controller toggles, the page-type classification, and the pixel arithmetic of the
 * sticky header. jQuery heights and scroll positions are taken as integer pixels.
 */
module GnbDom {
  import opened Wrappers

  // ------------------------------------------------------------------
  // The page as the controller sees it
  // ------------------------------------------------------------------

  /** A top-level `.menu > li`: whether it is `.no-child`, carries `on`, and its link's `aria-selected`. */
  datatype MenuItem = MenuItem(noChild: bool, on: bool, ariaSelected: bool)

  /** The search box: shown, sliding out (the mobile close animation, whose end is not modelled), or hidden. */
  datatype SearchBox = Shown | SlidingOut | Hidden

  datatype Dom = Dom(
    items: seq<MenuItem>,          // `.gnb .hd-cnt .menu > li`, in document order
    offeringOn: bool,              // some `.gsnb:not(.mobile) li.offering-list` carries `on`
    mobileOfferingOn: bool,        // some `.gsnb.mobile li.offering-list` carries `on`
    rnbOpen: bool,                 // `.rnb` displayed, `.btn_hamburger` active or disabled
    search: SearchBox,
    searchButtonOn: bool,          // `.btn-search.on`
    searchQuery: string,           // the search input's value
    historyOpen: bool,             // `.history.on` displayed, `.btn-history.on`
    hidS: bool,                    // body class `hid_s` (page scrolling locked)
    hidSm: bool,                   // body class `hid_sm`
    mcChk: bool,                   // `.M00_A.mc_chk`
    scrollChk: bool,               // `#wrap.scroll_chk`
    gnbTop: Option<int>,           // the bar's fixed `top`, once positioned
    headerCss: Option<nat>,        // `#header` inline height, once set
    headerVar: Option<nat>,        // the `--headerH` custom property, once set
    ver2024: bool)                 // `.gnb.gnb_ver2024.ver2024_2`

  // ------------------------------------------------------------------
  // Menu and panel transitions
  // ------------------------------------------------------------------

  /** `menuClose`: every top-level item loses `on` and is marked not selected. */
  function MenuClose(d: Dom): Dom {
    d.(items := seq(|d.items|, i requires 0 <= i < |d.items| => d.items[i].(on := false, ariaSelected := false)))
  }

  /** `subMenuClose`: unless focus is inside the sub-menu, every offering list closes. */
  function SubMenuClose(d: Dom, inFocus: bool): Dom {
    if inFocus then d else d.(offeringOn := false, mobileOfferingOn := false)
  }

  /**
   * `searchBoxClose`: on desktop the box hides at once and is cleaned up (scroll unlocked,
   * query cleared); on mobile it starts sliding out. The button loses `on` either way.
   */
  function SearchBoxClose(d: Dom, isMobile: bool): Dom {
    if isMobile then d.(search := SlidingOut, searchButtonOn := false)
    else d.(search := Hidden, hidS := false, searchQuery := "", searchButtonOn := false)
  }

  /** `rnbMenuClose`: the side panel hides and scrolling is unlocked. */
  function RnbMenuClose(d: Dom): Dom {
    d.(rnbOpen := false, hidS := false)
  }

  /** `historyMenuClose`: the history panel hides and scrolling is unlocked. */
  function HistoryMenuClose(d: Dom): Dom {
    d.(historyOpen := false, hidS := false)
  }

  /** `closeAllMenus`: side panel, then search box, then history panel. */
  function CloseAllMenus(d: Dom, isMobile: bool): Dom {
    HistoryMenuClose(SearchBoxClose(RnbMenuClose(d), isMobile))
  }

  /**
   * The class changes of hovering or focusing item `k`: every item with children loses
   * `on`, then the hovered item gains it if it has children (`closest('li:not(.no-child)')`
   * finds nothing otherwise).
   */
  function SelectTopItem(d: Dom, k: nat): Dom
    requires k < |d.items|
  {
    d.(items := seq(|d.items|, i requires 0 <= i < |d.items| =>
      if d.items[i].noChild then d.items[i]
      else d.items[i].(on := i == k, ariaSelected := i == k)))
  }

  /**
   * The page after hovering or focusing item `k`: the selection, every panel closed, and
   * scrolling locked. The lock is guarded by `!$menuItem.hasClass('no-child')`, which never
   * fails: the selected item is never `.no-child`, and `hasClass` on no element is false.
   */
  function EnterTopItem(d: Dom, k: nat, isMobile: bool): Dom
    requires k < |d.items|
  {
    var menuItemIsNoChild := false;
    var closed := CloseAllMenus(SelectTopItem(d, k), isMobile);
    if !menuItemIsNoChild then closed.(hidS := true) else closed
  }

  /** The `mainTransparent` callback: `mc_chk` goes when scrolling is unlocked and no item is `on`. */
  function MainTransparent(d: Dom): Dom {
    if !d.hidS && (forall i :: 0 <= i < |d.items| ==> !d.items[i].on) then d.(mcChk := false) else d
  }

  /** No panel is open: side panel and history hidden, search box not shown. */
  predicate PanelsClosed(d: Dom) {
    !d.rnbOpen && !d.historyOpen && d.search != Shown
  }

  /**
   * Hovering or focusing a top-level item marks exactly that item among those with
   * children, leaves `.no-child` items as they were, closes every panel and locks scrolling;
   * nothing else on the page changes.
   */
  lemma EnterTopItemEffect(d: Dom, k: nat, isMobile: bool)
    requires k < |d.items|
    ensures var d' := EnterTopItem(d, k, isMobile);
      && |d'.items| == |d.items|
      && (forall i :: 0 <= i < |d.items| && !d.items[i].noChild ==>
            d'.items[i] == d.items[i].(on := i == k, ariaSelected := i == k))
      && (forall i :: 0 <= i < |d.items| && d.items[i].noChild ==> d'.items[i] == d.items[i])
      && PanelsClosed(d') && d'.hidS
      && d'.offeringOn == d.offeringOn && d'.mobileOfferingOn == d.mobileOfferingOn
      && d'.(items := d.items, rnbOpen := d.rnbOpen, search := d.search, searchButtonOn := d.searchButtonOn,
             searchQuery := d.searchQuery, historyOpen := d.historyOpen, hidS := d.hidS) == d
  {
  }

  /** Selection is exclusive: after hovering item `k`, no other item with children is `on`. */
  lemma EnterTopItemExclusive(d: Dom, k: nat, isMobile: bool, j: nat)
    requires k < |d.items| && j < |d.items| && !d.items[j].noChild
    ensures EnterTopItem(d, k, isMobile).items[j].on <==> j == k
  {
    EnterTopItemEffect(d, k, isMobile);
  }

  /** The scroll-lock guard is vacuous: hovering a `.no-child` item also locks scrolling and marks nothing. */
  lemma EnterNoChildItemLocksScroll(d: Dom, k: nat, isMobile: bool)
    requires k < |d.items| && d.items[k].noChild
    ensures EnterTopItem(d, k, isMobile).hidS
    ensures forall i :: 0 <= i < |d.items| && !d.items[i].noChild ==> !EnterTopItem(d, k, isMobile).items[i].on
  {
    EnterTopItemEffect(d, k, isMobile);
  }

  /** `closeAllMenus` closes every panel, touches no menu item, and is idempotent. */
  lemma CloseAllMenusEffect(d: Dom, isMobile: bool)
    ensures var d' := CloseAllMenus(d, isMobile);
      && PanelsClosed(d') && d'.items == d.items && !d'.hidS
      && (!isMobile ==> d'.search == Hidden && d'.searchQuery == "")
      && CloseAllMenus(d', isMobile) == d'
  {
  }

  /**
   * `closeAllMenus` changes only the panels, the search box with its button and query, and
   * `hid_s`: the menu, the offering lists, the bar's position and height, and the other
   * classes stay as they were.
   */
  lemma CloseAllMenusFrame(d: Dom, isMobile: bool)
    ensures var d' := CloseAllMenus(d, isMobile);
      d'.(rnbOpen := d.rnbOpen, search := d.search, searchButtonOn := d.searchButtonOn,
          searchQuery := d.searchQuery, historyOpen := d.historyOpen, hidS := d.hidS) == d
  {
    if isMobile {
      assert CloseAllMenus(d, isMobile) ==
        d.(rnbOpen := false, search := SlidingOut, searchButtonOn := false, historyOpen := false, hidS := false);
    } else {
      assert CloseAllMenus(d, isMobile) ==
        d.(rnbOpen := false, search := Hidden, searchButtonOn := false, searchQuery := "", historyOpen := false, hidS := false);
    }
  }

  /** `menuClose` leaves no item `on` or selected, `.no-child` items included. */
  lemma MenuCloseEffect(d: Dom)
    ensures var d' := MenuClose(d);
      && |d'.items| == |d.items|
      && (forall i :: 0 <= i < |d'.items| ==>
            !d'.items[i].on && !d'.items[i].ariaSelected && d'.items[i].noChild == d.items[i].noChild)
      && d'.(items := d.items) == d
  {
  }

  /** `subMenuClose` does nothing while focus is inside the sub-menu; otherwise it closes every offering list. */
  lemma SubMenuCloseGuard(d: Dom, inFocus: bool)
    ensures inFocus ==> SubMenuClose(d, inFocus) == d
    ensures !inFocus ==> !SubMenuClose(d, inFocus).offeringOn && !SubMenuClose(d, inFocus).mobileOfferingOn
  {
  }

  // ------------------------------------------------------------------
  // Page-type classification
  // ------------------------------------------------------------------

  datatype GnbType = Main | Static | Offering | Normal

  /** A `menuId` element of the menu document and the text of its sibling `type`, in document order. */
  datatype MenuEntry = MenuEntry(menuId: string, menuType: string)

  /** The index of the first entry whose id is `current`. */
  function FirstMatch(menu: seq<MenuEntry>, current: string): (r: Option<nat>)
    ensures r.Some? ==>
      r.value < |menu| && menu[r.value].menuId == current && forall j :: 0 <= j < r.value ==> menu[j].menuId != current
    ensures r.None? ==> forall j :: 0 <= j < |menu| ==> menu[j].menuId != current
    decreases |menu|
  {
    if menu == [] then None
    else if menu[0].menuId == current then Some(0)
    else match FirstMatch(menu[1..], current)
      case None => None
      case Some(i) => Some(i + 1)
  }

  /** `split('_')[0]`: the longest prefix without an underscore. */
  function BeforeUnderscore(s: string): (head: string)
    ensures |head| <= |s| && head == s[..|head|]
    ensures '_' !in head
    ensures |head| < |s| ==> s[|head|] == '_'
    decreases |s|
  {
    if s == [] || s[0] == '_' then [] else [s[0]] + BeforeUnderscore(s[1..])
  }

  /** The head of `s` is `p` exactly when `s` is `p` or starts with `p` and an underscore. */
  lemma HeadIs(s: string, p: string)
    requires '_' !in p
    ensures BeforeUnderscore(s) == p <==> s == p || (|p| < |s| && s[..|p| + 1] == p + "_")
  {
    if s == p || (|p| < |s| && s[..|p| + 1] == p + "_") {
      StartsWithHead(s, p);
    }
    if BeforeUnderscore(s) == p {
      HeadStarts(s);
    }
  }

  /** The head is all of `s`, or it is followed by an underscore. */
  lemma HeadStarts(s: string)
    ensures var p := BeforeUnderscore(s);
      s == p || (|p| < |s| && s[..|p| + 1] == p + "_")
  {
    var p := BeforeUnderscore(s);
    if |p| < |s| {
      assert s[..|p| + 1] == s[..|p|] + [s[|p|]];
    } else {
      assert s == s[..|p|];
    }
  }

  lemma StartsWithHead(s: string, p: string)
    requires '_' !in p
    requires s == p || (|p| < |s| && s[..|p| + 1] == p + "_")
    ensures BeforeUnderscore(s) == p
  {
    if s != p {
      var q := p + "_";
      assert s[..|p|] == q[..|p|] == p;
      assert s[|p|] == q[|p|] == '_';
    }
    HeadMatchesPrefix(s, p);
  }

  /** A prefix `p` of `s` without underscores, followed by the end of `s` or by `_`, is the head. */
  lemma HeadMatchesPrefix(s: string, p: string)
    requires '_' !in p && |p| <= |s| && s[..|p|] == p
    requires |p| < |s| ==> s[|p|] == '_'
    ensures BeforeUnderscore(s) == p
  {
  }

  /** The bar type named by a menu `type`: its head if that is static, offering or normal, otherwise main. */
  function GnbTypeOf(menuType: string): GnbType {
    var head := BeforeUnderscore(menuType);
    if head == "static" then Static
    else if head == "offering" then Offering
    else if head == "normal" then Normal
    else Main
  }

  /** A type resolves to static, offering or normal exactly when it is that word or starts with it and `_`. */
  lemma GnbTypeOfPrefix(t: string)
    ensures GnbTypeOf(t) == Static <==> t == "static" || (|t| > 6 && t[..7] == "static_")
    ensures GnbTypeOf(t) == Offering <==> t == "offering" || (|t| > 8 && t[..9] == "offering_")
    ensures GnbTypeOf(t) == Normal <==> t == "normal" || (|t| > 6 && t[..7] == "normal_")
  {
    HeadIs(t, "static");
    HeadIs(t, "offering");
    HeadIs(t, "normal");
  }

  lemma OfferingExample()
    ensures GnbTypeOf("offering_sub") == Offering
  {
    assert "offering_sub"[..9] == "offering" + "_";
    StartsWithHead("offering_sub", "offering");
  }

  /** A head that names none of the three types selects the main bar. */
  lemma CustomExample()
    ensures GnbTypeOf("custom_foo") == Main
  {
    assert "custom_foo"[..7] == "custom" + "_";
    StartsWithHead("custom_foo", "custom");
  }

  lemma StaticExample()
    ensures GnbTypeOf("static") == Static
  {
    StartsWithHead("static", "static");
  }

  /**
   * `determineGnbType` as a value: the first entry whose id is `current` decides both
   * fields; with no such entry both keep their previous values.
   */
  function Classify(menu: seq<MenuEntry>, current: string, gnbType: GnbType, pageType: Option<string>): (GnbType, Option<string>) {
    match FirstMatch(menu, current)
    case None => (gnbType, pageType)
    case Some(i) => (GnbTypeOf(menu[i].menuType), Some(menu[i].menuType))
  }

  /** A later entry with the same id never overrides an earlier one. */
  lemma ClassifyFirstWins(menu: seq<MenuEntry>, current: string, e: MenuEntry, g: GnbType, p: Option<string>)
    requires e.menuId == current
    ensures Classify([e] + menu, current, g, p) == (GnbTypeOf(e.menuType), Some(e.menuType))
    ensures forall rest: seq<MenuEntry> :: Classify([e] + rest, current, g, p) == Classify([e] + menu, current, g, p)
  {
  }

  // ------------------------------------------------------------------
  // Sticky header arithmetic
  // ------------------------------------------------------------------

  /** The height of `.tail_wrap` counts only when the body has `tail_chk` and the view is not mobile. */
  function TailHeight(tailChk: bool, isMobile: bool, tailWrapH: nat): nat {
    if tailChk && !isMobile then tailWrapH else 0
  }

  /** `updateGnbPosition`: the bar's `top` for a scroll position, the header's top and the heights. */
  function GnbOffset(scroll: int, headerTop: int, gnbH: nat, tailH: nat): int {
    if scroll > headerTop then (if scroll > 60 then -(gnbH + 1 + tailH) else 0)
    else headerTop - scroll - tailH
  }

  /**
   * Until the header's top scrolls away, the bar follows it pixel for pixel, raised by the
   * tail box; after that it is pinned at the top until 60 px, then parked just above the
   * viewport with its bottom edge at -1.
   */
  lemma GnbOffsetRegimes(scroll: int, headerTop: int, gnbH: nat, tailH: nat)
    ensures var top := GnbOffset(scroll, headerTop, gnbH, tailH);
      && (scroll <= headerTop ==> top + tailH == headerTop - scroll)
      && (headerTop < scroll <= 60 ==> top == 0)
      && (scroll > headerTop && scroll > 60 ==> top + gnbH + tailH == -1)
      && -(gnbH + 1 + tailH) <= top
  {
  }

  /** While the header is in view, scrolling by `delta` moves the bar up by exactly `delta`. */
  lemma GnbOffsetTracksHeader(s1: int, s2: int, headerTop: int, gnbH: nat, tailH: nat)
    requires s1 <= s2 <= headerTop
    ensures GnbOffset(s1, headerTop, gnbH, tailH) - GnbOffset(s2, headerTop, gnbH, tailH) == s2 - s1
  {
  }

  /** `updateScrollState`: `scroll_chk` is present exactly when the page is not scrolled down. */
  function ScrollChk(scroll: int): bool {
    scroll <= 0
  }

  /** `handleScroll` updates the bar only for scroll events of the document while scrolling is unlocked. */
  function ScrollHandled(targetIsDocument: bool, hidS: bool): bool {
    targetIsDocument && !hidS
  }

  // ------------------------------------------------------------------
  // Header height
  // ------------------------------------------------------------------

  /**
   * The height `setGnbHeight` computes per bar type; `None` for main, where the `switch`
   * assigns nothing. Offering bars add the visible brand-colour strip unless on the offering main page.
   */
  function BarHeight(gnbType: GnbType, isOfferingMain: bool, elH: nat, brandVisible: bool, brandH: nat): Option<nat> {
    match gnbType
    case Offering => Some(if isOfferingMain then elH else elH + (if brandVisible then brandH else 0))
    case Normal => Some(elH)
    case Static => Some(elH)
    case Main => None
  }

  datatype HeightUpdate = HeightUpdate(headerCss: Option<nat>, headerVar: nat)

  /**
   * `setGnbHeight`: a non-zero bar height is written to `#header` and to `--headerH`; a
   * main bar, or a zero height, leaves `#header` alone and `--headerH` falls back to its height.
   */
  function SetGnbHeight(gnbType: GnbType, isOfferingMain: bool, elH: nat, brandVisible: bool, brandH: nat, headerH: nat): (u: HeightUpdate)
    ensures u.headerCss.Some? <==> gnbType != Main && BarHeight(gnbType, isOfferingMain, elH, brandVisible, brandH) != Some(0)
    ensures u.headerCss.Some? ==>
      Some(u.headerCss.value) == BarHeight(gnbType, isOfferingMain, elH, brandVisible, brandH) && u.headerVar == u.headerCss.value > 0
    ensures u.headerCss.None? ==> u.headerVar == headerH
  {
    var height := BarHeight(gnbType, isOfferingMain, elH, brandVisible, brandH);
    var css := if gnbType != Main && height.Some? && height.value != 0 then height else None;
    HeightUpdate(css, if height.Some? && height.value != 0 then height.value else headerH)
  }

  // ------------------------------------------------------------------
  // Version class
  // ------------------------------------------------------------------

  /** `t` occurs in `s` starting at index `i`. */
  ghost predicate OccursAt(s: string, t: string, i: int) {
    0 <= i <= |s| - |t| && s[i..i + |t|] == t
  }

  /** `String.prototype.includes`. */
  function Includes(s: string, t: string): (r: bool)
    ensures r <==> exists i :: OccursAt(s, t, i)
    decreases |s|
  {
    if |t| > |s| then false
    else if s[..|t|] == t then assert OccursAt(s, t, 0); true
    else
      var r := Includes(s[1..], t);
      assert r ==> exists i :: OccursAt(s, t, i) by {
        if r {
          var i :| OccursAt(s[1..], t, i);
          assert s[1..][i..i + |t|] == s[i + 1..i + 1 + |t|];
          assert OccursAt(s, t, i + 1);
        }
      }
      assert (exists i :: OccursAt(s, t, i)) ==> r by {
        if exists i :: OccursAt(s, t, i) {
          var i :| OccursAt(s, t, i);
          assert i != 0;
          assert s[1..][i - 1..i - 1 + |t|] == s[i..i + |t|];
          assert OccursAt(s[1..], t, i - 1);
        }
      }
      r
  }

  const PortNums: seq<string> := [":7000/", ":8001/", ":8002/"]
  const MainUrl: string := "samsungsds.com/"
  const ExcludedCountries: seq<string> := ["cn"]

  /** `needles.some(n => url.includes(prefix + n))`. */
  function SomeIncluded(url: string, prefix: string, needles: seq<string>): (r: bool)
    ensures r <==> exists k :: 0 <= k < |needles| && Includes(url, prefix + needles[k])
    decreases |needles|
  {
    if needles == [] then false
    else if Includes(url, prefix + needles[0]) then true
    else
      var r := SomeIncluded(url, prefix, needles[1..]);
      assert r ==> exists k :: 0 <= k < |needles| && Includes(url, prefix + needles[k]) by {
        if r {
          var k :| 0 <= k < |needles[1..]| && Includes(url, prefix + needles[1..][k]);
          assert needles[1..][k] == needles[k + 1];
        }
      }
      r
  }

  /** `checkGnbVersion`: the 2024 classes are added unless the page is the China site outside the development ports. */
  function CheckGnbVersion(url: string): (addClass: bool)
    ensures addClass <==>
      (exists k :: 0 <= k < |PortNums| && Includes(url, PortNums[k])) || !Includes(url, MainUrl + ExcludedCountries[0])
  {
    var matchUrl := SomeIncluded(url, "", PortNums);
    var isExcludedCountry := SomeIncluded(url, MainUrl, ExcludedCountries);
    assert forall k :: 0 <= k < |PortNums| ==> "" + PortNums[k] == PortNums[k];
    matchUrl || !isExcludedCountry
  }

  /** A development port always gets the 2024 classes. */
  lemma DevPortGetsVersion(pre: string, k: nat, post: string)
    requires k < |PortNums|
    ensures CheckGnbVersion(pre + PortNums[k] + post)
  {
    var url := pre + PortNums[k] + post;
    assert url[|pre|..|pre| + |PortNums[k]|] == PortNums[k];
    assert OccursAt(url, PortNums[k], |pre|);
  }

  /** The China site, outside the development ports, does not. */
  lemma ChinaSiteKeepsOldVersion(pre: string, post: string)
    requires var url := pre + "samsungsds.com/cn" + post;
      forall k :: 0 <= k < |PortNums| ==> !Includes(url, PortNums[k])
    ensures !CheckGnbVersion(pre + "samsungsds.com/cn" + post)
  {
    var url := pre + "samsungsds.com/cn" + post;
    assert url[|pre|..|pre| + 17] == "samsungsds.com/cn";
    assert MainUrl + ExcludedCountries[0] == "samsungsds.com/cn";
    assert OccursAt(url, MainUrl + ExcludedCountries[0], |pre|);
  }
}
