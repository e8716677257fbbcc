/**
 * `GNBController`: the navigation bar's state, its named timers and its players, and the
 * handlers that the shown part of the controller defines. The page is the `Dom` value of
 * module GnbDom, replaced as a whole by each handler; what the browser measures at the
 * moment of an event (scroll position, element heights) arrives as a `Measures` argument.
 */
module Gnb {
  import opened Wrappers
  import TimerSpec
  import Timers
  import YouTube
  import GnbUtils
  import opened GnbDom

  // ------------------------------------------------------------------
  // Configuration and timers
  // ------------------------------------------------------------------

  /** `GNB_CONFIG.TIMERS`, in milliseconds. */
  const MainTransparentDelay := 100
  const MenuCloseDelay := 100
  const SubMenuCloseDelay := 100
  const RnbMenuCloseDelay := 100
  const HistoryMenuCloseDelay := 100
  const GnbResizeDelay := 100

  /** The wait of the debounced resize handler and the limit of the throttled scroll handler. */
  const ResizeDebounceWait: nat := 200
  const ScrollThrottleLimit: nat := 16

  /** The callbacks `initializeTimers` registers, one per timer name. */
  datatype GnbTimer = MainTransparentCb | MenuCloseCb | SubMenuCloseCb | RnbMenuCloseCb | HistoryMenuCloseCb | GnbResizeCb

  function TimerName(cb: GnbTimer): string {
    match cb
    case MainTransparentCb => "mainTransparent"
    case MenuCloseCb => "menuClose"
    case SubMenuCloseCb => "subMenuClose"
    case RnbMenuCloseCb => "rnbMenuClose"
    case HistoryMenuCloseCb => "historyMenuClose"
    case GnbResizeCb => "gnbResize"
  }

  function TimerDelay(cb: GnbTimer): int {
    match cb
    case MainTransparentCb => MainTransparentDelay
    case MenuCloseCb => MenuCloseDelay
    case SubMenuCloseCb => SubMenuCloseDelay
    case RnbMenuCloseCb => RnbMenuCloseDelay
    case HistoryMenuCloseCb => HistoryMenuCloseDelay
    case GnbResizeCb => GnbResizeDelay
  }

  /** `initializeTimers`: six `create` calls, in the source's order. */
  function CreateTimers(r0: TimerSpec.Registry<GnbTimer>): TimerSpec.Registry<GnbTimer> {
    var r1 := TimerSpec.Create(r0, TimerName(MainTransparentCb), MainTransparentCb, TimerDelay(MainTransparentCb));
    var r2 := TimerSpec.Create(r1, TimerName(MenuCloseCb), MenuCloseCb, TimerDelay(MenuCloseCb));
    var r3 := TimerSpec.Create(r2, TimerName(SubMenuCloseCb), SubMenuCloseCb, TimerDelay(SubMenuCloseCb));
    var r4 := TimerSpec.Create(r3, TimerName(RnbMenuCloseCb), RnbMenuCloseCb, TimerDelay(RnbMenuCloseCb));
    var r5 := TimerSpec.Create(r4, TimerName(HistoryMenuCloseCb), HistoryMenuCloseCb, TimerDelay(HistoryMenuCloseCb));
    TimerSpec.Create(r5, TimerName(GnbResizeCb), GnbResizeCb, TimerDelay(GnbResizeCb))
  }

  /** The registry of a new controller: `initializeTimers` on a fresh `TimerManager`. */
  function InitialRegistry(): TimerSpec.Registry<GnbTimer> {
    CreateTimers(TimerSpec.Empty())
  }

  const TimerNames: set<string> := {"mainTransparent", "menuClose", "subMenuClose", "rnbMenuClose", "historyMenuClose", "gnbResize"}

  /** Every callback is registered under its own name, with its delay and nothing pending. */
  ghost predicate Registered(r: TimerSpec.Registry<GnbTimer>) {
    forall cb: GnbTimer :: TimerName(cb) in r.timers && r.timers[TimerName(cb)].callback == cb
      && r.timers[TimerName(cb)].delay == TimerDelay(cb)
  }

  /**
   * After `initializeTimers` exactly the six names are registered, each with its callback
   * and delay, nothing is scheduled, and the registry invariant holds.
   */
  lemma InitialRegistryCorrect()
    ensures var r := InitialRegistry();
      && TimerSpec.Inv(r) && Registered(r) && r.live == map[]
      && r.timers.Keys == TimerNames
      && (forall n :: n in r.timers ==> r.timers[n].timeout == None)
  {
    InitialEntries();
  }

  /** Each callback's entry in the initial registry: its own name, its delay, nothing pending. */
  lemma InitialEntries()
    ensures forall cb: GnbTimer ::
      TimerName(cb) in InitialRegistry().timers && InitialRegistry().timers[TimerName(cb)] == TimerSpec.Timer(cb, TimerDelay(cb), None)
  {
    var t := InitialRegistry().timers;
    forall cb: GnbTimer ensures TimerName(cb) in t && t[TimerName(cb)] == TimerSpec.Timer(cb, TimerDelay(cb), None) {
      match cb
      case MainTransparentCb =>
      case MenuCloseCb =>
      case SubMenuCloseCb =>
      case RnbMenuCloseCb =>
      case HistoryMenuCloseCb =>
      case GnbResizeCb =>
    }
  }

  /** Timer names are distinct, so starting one timer never schedules another's callback. */
  lemma TimerNameInjective(a: GnbTimer, b: GnbTimer)
    ensures TimerName(a) == TimerName(b) <==> a == b
  {
  }

  /** A `mouseleave` starts `menuClose`; when that timeout fires, the callback it runs is `menuClose`. */
  lemma LeaveThenFireRunsMenuClose(r: TimerSpec.Registry<GnbTimer>)
    requires TimerSpec.Inv(r) && Registered(r)
    ensures var r' := TimerSpec.Start(r, TimerName(MenuCloseCb));
      TimerSpec.Fire(r', r.next).1 == Some(MenuCloseCb)
  {
    TimerSpec.StartSchedulesOnlyNewTimeout(r, TimerName(MenuCloseCb));
  }

  // ------------------------------------------------------------------
  // State, measurements and page transformations
  // ------------------------------------------------------------------

  /** `this.state`. */
  datatype State = State(isMobile: bool, isMobileDevice: bool, isFocus: bool, inFocus: bool, isOfferingMain: bool)

  /** What the handlers read from the page when they run, in pixels. */
  datatype Measures = Measures(
    scroll: int,          // `$(window).scrollTop()`
    headerTop: int,       // `$('#header').offset().top`
    gnbH: nat,            // `$('.gnb').height()`
    elH: nat,             // `this.$el.height()`
    brandVisible: bool,   // `$('.brandcolor').is(':visible')`
    brandH: nat,          // `$('.brandcolor').height()`
    headerH: nat,         // `$('#header').height()`
    tailChk: bool,        // body class `tail_chk`
    tailWrapH: nat)       // `$('.tail_wrap').height()`

  /** Writes a `setGnbHeight` result: `#header` only when a height was set, `--headerH` always. */
  function ApplyHeight(d: Dom, u: HeightUpdate): (d': Dom)
    ensures d'.headerVar == Some(u.headerVar)
    ensures d'.headerCss == (if u.headerCss.Some? then u.headerCss else d.headerCss)
    ensures d'.(headerCss := d.headerCss, headerVar := d.headerVar) == d
  {
    var d1 := if u.headerCss.Some? then d.(headerCss := u.headerCss) else d;
    d1.(headerVar := Some(u.headerVar))
  }

  function SetGnbHeightDom(d: Dom, gnbType: GnbType, s: State, m: Measures): Dom {
    ApplyHeight(d, SetGnbHeight(gnbType, s.isOfferingMain, m.elH, m.brandVisible, m.brandH, m.headerH))
  }

  /** `updateScrollState` followed by `updateGnbPosition`. */
  function ScrollUpdate(d: Dom, s: State, m: Measures): Dom {
    d.(scrollChk := ScrollChk(m.scroll),
       gnbTop := Some(GnbOffset(m.scroll, m.headerTop, m.gnbH, TailHeight(m.tailChk, s.isMobile, m.tailWrapH))))
  }

  /**
   * `scroll_chk` is on exactly at the top of the page, and then the bar is still following
   * the header: it sits at the header's top, raised by the tail box. Nothing but the class
   * and the bar's `top` changes.
   */
  lemma ScrollChkFollowsHeader(d: Dom, s: State, m: Measures)
    requires m.headerTop >= 0
    ensures var d' := ScrollUpdate(d, s, m);
      && (d'.scrollChk <==> m.scroll <= 0)
      && (d'.scrollChk ==> d'.gnbTop == Some(m.headerTop - m.scroll - TailHeight(m.tailChk, s.isMobile, m.tailWrapH)))
      && d'.(scrollChk := d.scrollChk, gnbTop := d.gnbTop) == d
  {
  }

  /**
   * On a mobile view the tail box never shifts the bar: `tail_chk` and the height of
   * `.tail_wrap` do not change the outcome, which is the position without a tail box.
   */
  lemma MobileIgnoresTail(d: Dom, s: State, m: Measures, tailChk: bool, tailWrapH: nat)
    requires s.isMobile
    ensures ScrollUpdate(d, s, m) == ScrollUpdate(d, s, m.(tailChk := tailChk, tailWrapH := tailWrapH))
    ensures ScrollUpdate(d, s, m).gnbTop == Some(GnbOffset(m.scroll, m.headerTop, m.gnbH, 0))
  {
  }

  /** `setSticky`: the header height, then the bar's position and the scroll class. */
  function Sticky(d: Dom, gnbType: GnbType, s: State, m: Measures): Dom {
    ScrollUpdate(SetGnbHeightDom(d, gnbType, s, m), s, m)
  }

  /**
   * `handleResize`: header height, side panel closed, then on mobile the desktop offering
   * lists close and on desktop the bar is made sticky; `hid_sm` follows the device test.
   */
  function Resize(d: Dom, gnbType: GnbType, s: State, m: Measures): Dom {
    var d1 := RnbMenuClose(SetGnbHeightDom(d, gnbType, s, m));
    var d2 := if s.isMobile then d1.(offeringOn := false) else Sticky(d1, gnbType, s, m);
    d2.(hidSm := s.isMobileDevice)
  }

  /** What each registered callback does to the page. */
  function RunCallback(d: Dom, cb: GnbTimer, gnbType: GnbType, s: State, m: Measures): Dom {
    match cb
    case MainTransparentCb => MainTransparent(d)
    case MenuCloseCb => MenuClose(d)
    case SubMenuCloseCb => SubMenuClose(d, s.inFocus)
    case RnbMenuCloseCb => RnbMenuClose(d)
    case HistoryMenuCloseCb => HistoryMenuClose(d)
    case GnbResizeCb => Resize(d, gnbType, s, m)
  }

  /**
   * After a resize the side panel is closed and scrolling unlocked, `--headerH` is set,
   * `hid_sm` matches the device, the desktop offering lists are closed on mobile, the bar
   * is positioned on desktop, and the menu, search box and history panel are untouched by
   * the modelled steps.
   */
  lemma ResizeEffect(d: Dom, gnbType: GnbType, s: State, m: Measures)
    ensures var d' := Resize(d, gnbType, s, m);
      && !d'.rnbOpen && !d'.hidS && d'.headerVar.Some? && d'.hidSm == s.isMobileDevice
      && (s.isMobile ==> !d'.offeringOn && d'.gnbTop == d.gnbTop && d'.scrollChk == d.scrollChk)
      && (!s.isMobile ==>
            d'.offeringOn == d.offeringOn
            && d'.gnbTop == Some(GnbOffset(m.scroll, m.headerTop, m.gnbH, TailHeight(m.tailChk, false, m.tailWrapH)))
            && d'.scrollChk == (m.scroll <= 0))
      && d'.items == d.items && d'.search == d.search && d'.historyOpen == d.historyOpen
      && d'.mobileOfferingOn == d.mobileOfferingOn && d'.ver2024 == d.ver2024
  {
  }

  /** A main bar never gets an inline `#header` height from a resize. */
  lemma ResizeKeepsMainHeader(d: Dom, s: State, m: Measures)
    ensures Resize(d, Main, s, m).headerCss == d.headerCss
    ensures Resize(d, Main, s, m).headerVar == Some(m.headerH)
  {
    var u := SetGnbHeight(Main, s.isOfferingMain, m.elH, m.brandVisible, m.brandH, m.headerH);
    assert u.headerCss == None && u.headerVar == m.headerH;
    var d1 := RnbMenuClose(SetGnbHeightDom(d, Main, s, m));
    assert d1.headerCss == d.headerCss && d1.headerVar == Some(m.headerH);
    if !s.isMobile {
      var d2 := SetGnbHeightDom(d1, Main, s, m);
      assert d2.headerCss == d.headerCss && d2.headerVar == Some(m.headerH);
    }
  }

  // ------------------------------------------------------------------
  // The controller
  // ------------------------------------------------------------------

  class GNBController {
    var state: State
    var gnbType: GnbType
    var currentPageType: Option<string>
    var dom: Dom
    const timerManager: Timers.TimerManager<GnbTimer>
    const youtubeManager: YouTube.YouTubePlayerManager
    /** The state of the debounced `resize` handler and of the throttled `scroll.gnb` handler. */
    const resizeDebouncer: GnbUtils.Debouncer<()>
    const scrollThrottler: GnbUtils.Throttler

    ghost predicate Valid()
      reads this, timerManager, youtubeManager
    {
      TimerSpec.Inv(timerManager.Model()) && youtubeManager.Valid()
    }

    /**
     * `new GNBController(element)` up to `initializeTimers`: the properties from the
     * viewport and device test, a fresh timer manager holding the six timers, and a
     * fresh player manager.
     */
    constructor (d: Dom, innerWidth: int, clientWidth: int, isMobileDevice: bool)
      ensures Valid() && Registered(timerManager.Model())
      ensures timerManager.Model() == InitialRegistry()
      ensures state == State(GnbUtils.IsMobileView(innerWidth, clientWidth), isMobileDevice, false, false, false)
      ensures gnbType == Main && currentPageType == None && dom == d
      ensures youtubeManager.players == [] && youtubeManager.readyStates == map[]
      ensures resizeDebouncer.wait == ResizeDebounceWait && resizeDebouncer.timeout == None
      ensures scrollThrottler.limit == ScrollThrottleLimit && scrollThrottler.Model() == None
      ensures fresh(timerManager) && fresh(youtubeManager) && fresh(resizeDebouncer) && fresh(scrollThrottler)
    {
      state := State(GnbUtils.IsMobileView(innerWidth, clientWidth), isMobileDevice, false, false, false);
      gnbType := Main;
      currentPageType := None;
      dom := d;
      timerManager := new Timers.TimerManager();
      youtubeManager := new YouTube.YouTubePlayerManager();
      resizeDebouncer := new GnbUtils.Debouncer(ResizeDebounceWait);
      scrollThrottler := new GnbUtils.Throttler(ScrollThrottleLimit);
      new;
      InitializeTimers();
      assert timerManager.Model() == InitialRegistry();
      assert TimerSpec.Inv(timerManager.Model()) && Registered(timerManager.Model()) by {
        InitialRegistryCorrect();
      }
    }

    method InitializeTimers()
      modifies timerManager
      ensures timerManager.Model() == CreateTimers(old(timerManager.Model()))
    {
      timerManager.Create(TimerName(MainTransparentCb), MainTransparentCb, TimerDelay(MainTransparentCb));
      timerManager.Create(TimerName(MenuCloseCb), MenuCloseCb, TimerDelay(MenuCloseCb));
      timerManager.Create(TimerName(SubMenuCloseCb), SubMenuCloseCb, TimerDelay(SubMenuCloseCb));
      timerManager.Create(TimerName(RnbMenuCloseCb), RnbMenuCloseCb, TimerDelay(RnbMenuCloseCb));
      timerManager.Create(TimerName(HistoryMenuCloseCb), HistoryMenuCloseCb, TimerDelay(HistoryMenuCloseCb));
      timerManager.Create(TimerName(GnbResizeCb), GnbResizeCb, TimerDelay(GnbResizeCb));
    }

    /** `determineGnbType`: the first `menuId` equal to the current page decides the type. */
    method DetermineGnbType(menu: seq<MenuEntry>, current: string)
      modifies this
      ensures (gnbType, currentPageType) == Classify(menu, current, old(gnbType), old(currentPageType))
      ensures state == old(state) && dom == old(dom)
    {
      var i := 0;
      while i < |menu|
        invariant 0 <= i <= |menu|
        invariant forall j :: 0 <= j < i ==> menu[j].menuId != current
        invariant gnbType == old(gnbType) && currentPageType == old(currentPageType)
      {
        if menu[i].menuId == current {
          var t := menu[i].menuType;
          currentPageType := Some(t);
          var mainType := BeforeUnderscore(t);
          gnbType := if mainType == "static" then Static
            else if mainType == "offering" then Offering
            else if mainType == "normal" then Normal
            else Main;
          break;
        }
        i := i + 1;
      }
    }

    /** `youtubeManager.init()` once the player API is available; `present` are the ids found in the page. */
    method InitYouTube(present: set<string>)
      requires Valid()
      modifies youtubeManager
      ensures Valid()
      ensures youtubeManager.players == YouTube.Register(old(youtubeManager.players), YouTube.PlayerIds, present)
      ensures youtubeManager.readyStates == YouTube.ClearReady(old(youtubeManager.readyStates), YouTube.PlayerIds, present)
    {
      youtubeManager.InitializePlayers(present);
    }

    /** `checkGnbVersion` for the page address `url`. */
    method CheckGnbVersion(url: string)
      modifies this
      ensures dom == if GnbDom.CheckGnbVersion(url) then old(dom).(ver2024 := true) else old(dom)
      ensures state == old(state) && gnbType == old(gnbType) && currentPageType == old(currentPageType)
    {
      if GnbDom.CheckGnbVersion(url) {
        dom := dom.(ver2024 := true);
      }
    }

    /**
     * `mouseenter`/`focus` on top-level item `k`: the pending `menuClose` is cancelled,
     * the item is selected, every panel closes, scrolling locks, and every ready player
     * stops; `stopped` lists the players `stopVideo` was called on.
     */
    method MenuEnter(k: nat) returns (stopped: seq<string>)
      requires Valid() && k < |dom.items|
      modifies this, timerManager
      ensures Valid()
      ensures timerManager.Model() == TimerSpec.Stop(old(timerManager.Model()), TimerName(MenuCloseCb))
      ensures dom == EnterTopItem(old(dom), k, state.isMobile)
      ensures state == old(state) && gnbType == old(gnbType) && currentPageType == old(currentPageType)
      ensures stopped == YouTube.ReadyInOrder(youtubeManager.players, youtubeManager.readyStates)
    {
      TimerSpec.StopPreservesInv(timerManager.Model(), TimerName(MenuCloseCb));
      timerManager.Stop(TimerName(MenuCloseCb));
      dom := SelectTopItem(dom, k);
      CloseAllMenus();
      var menuItemIsNoChild := false;
      if !menuItemIsNoChild {
        dom := dom.(hidS := true);
      }
      stopped := youtubeManager.StopAll();
    }

    /** `mouseleave`/`blur` on a top-level item: `menuClose` is (re)scheduled. */
    method MenuLeave()
      requires Valid()
      modifies timerManager
      ensures Valid()
      ensures timerManager.Model() == TimerSpec.Start(old(timerManager.Model()), TimerName(MenuCloseCb))
    {
      TimerSpec.StartPreservesInv(timerManager.Model(), TimerName(MenuCloseCb));
      timerManager.Start(TimerName(MenuCloseCb));
    }

    method MenuClose()
      modifies this
      ensures dom == GnbDom.MenuClose(old(dom))
      ensures state == old(state) && gnbType == old(gnbType) && currentPageType == old(currentPageType)
    {
      dom := GnbDom.MenuClose(dom);
    }

    method SubMenuClose()
      modifies this
      ensures dom == GnbDom.SubMenuClose(old(dom), state.inFocus)
      ensures state == old(state) && gnbType == old(gnbType) && currentPageType == old(currentPageType)
    {
      if state.inFocus {
        return;
      }
      dom := dom.(offeringOn := false, mobileOfferingOn := false);
    }

    method SearchBoxClose()
      modifies this
      ensures dom == GnbDom.SearchBoxClose(old(dom), state.isMobile)
      ensures state == old(state) && gnbType == old(gnbType) && currentPageType == old(currentPageType)
    {
      if state.isMobile {
        dom := dom.(search := SlidingOut);
      } else {
        dom := dom.(search := Hidden);
        CleanupSearchBox();
      }
      dom := dom.(searchButtonOn := false);
    }

    /** `cleanupSearchBox`: scrolling unlocked and the query cleared. */
    method CleanupSearchBox()
      modifies this
      ensures dom == old(dom).(hidS := false, searchQuery := "")
      ensures state == old(state) && gnbType == old(gnbType) && currentPageType == old(currentPageType)
    {
      dom := dom.(hidS := false, searchQuery := "");
    }

    method RnbMenuClose()
      modifies this
      ensures dom == GnbDom.RnbMenuClose(old(dom))
      ensures state == old(state) && gnbType == old(gnbType) && currentPageType == old(currentPageType)
    {
      dom := dom.(rnbOpen := false, hidS := false);
    }

    method HistoryMenuClose()
      modifies this
      ensures dom == GnbDom.HistoryMenuClose(old(dom))
      ensures state == old(state) && gnbType == old(gnbType) && currentPageType == old(currentPageType)
    {
      dom := dom.(historyOpen := false, hidS := false);
    }

    method CloseAllMenus()
      modifies this
      ensures dom == GnbDom.CloseAllMenus(old(dom), state.isMobile)
      ensures state == old(state) && gnbType == old(gnbType) && currentPageType == old(currentPageType)
    {
      RnbMenuClose();
      SearchBoxClose();
      HistoryMenuClose();
    }

    /** `setGnbHeight` with the current measurements. */
    method SetGnbHeight(m: Measures)
      modifies this
      ensures dom == SetGnbHeightDom(old(dom), gnbType, state, m)
      ensures state == old(state) && gnbType == old(gnbType) && currentPageType == old(currentPageType)
    {
      var u := GnbDom.SetGnbHeight(gnbType, state.isOfferingMain, m.elH, m.brandVisible, m.brandH, m.headerH);
      if u.headerCss.Some? {
        dom := dom.(headerCss := u.headerCss);
      }
      dom := dom.(headerVar := Some(u.headerVar));
    }

    method SetSticky(m: Measures)
      modifies this
      ensures dom == Sticky(old(dom), gnbType, state, m)
      ensures state == old(state) && gnbType == old(gnbType) && currentPageType == old(currentPageType)
    {
      SetGnbHeight(m);
      ghost var d1 := dom;
      dom := dom.(gnbTop := Some(GnbOffset(m.scroll, m.headerTop, m.gnbH, TailHeight(m.tailChk, state.isMobile, m.tailWrapH))));
      dom := dom.(scrollChk := ScrollChk(m.scroll));
      assert dom == ScrollUpdate(d1, state, m);
    }

    /** `handleScroll`: `handled` is false when the event is ignored and the page left as it was. */
    method HandleScroll(targetIsDocument: bool, m: Measures) returns (handled: bool)
      modifies this
      ensures handled == ScrollHandled(targetIsDocument, old(dom).hidS)
      ensures dom == if handled then ScrollUpdate(old(dom), state, m) else old(dom)
      ensures state == old(state) && gnbType == old(gnbType) && currentPageType == old(currentPageType)
    {
      if !targetIsDocument || dom.hidS {
        return false;
      }
      dom := dom.(scrollChk := ScrollChk(m.scroll));
      dom := dom.(gnbTop := Some(GnbOffset(m.scroll, m.headerTop, m.gnbH, TailHeight(m.tailChk, state.isMobile, m.tailWrapH))));
      return true;
    }

    method HandleResize(m: Measures)
      modifies this
      ensures dom == Resize(old(dom), gnbType, state, m)
      ensures state == old(state) && gnbType == old(gnbType) && currentPageType == old(currentPageType)
    {
      SetGnbHeight(m);
      RnbMenuClose();
      if state.isMobile {
        dom := dom.(offeringOn := false);
      } else {
        SetSticky(m);
      }
      dom := dom.(hidSm := state.isMobileDevice);
    }

    /**
     * The browser fires timeout `h`: if it is still live, its callback runs against the
     * page; `ran` names it.
     */
    method OnTimeout(h: nat, m: Measures) returns (ran: Option<GnbTimer>)
      requires Valid()
      modifies this, timerManager
      ensures Valid()
      ensures (timerManager.Model(), ran) == TimerSpec.Fire(old(timerManager.Model()), h)
      ensures dom == if ran.Some? then RunCallback(old(dom), ran.value, gnbType, state, m) else old(dom)
      ensures state == old(state) && gnbType == old(gnbType) && currentPageType == old(currentPageType)
    {
      TimerSpec.FirePreservesInv(timerManager.Model(), h);
      ran := timerManager.Fire(h);
      if ran.Some? {
        match ran.value
        case MainTransparentCb =>
          if !dom.hidS && (forall i :: 0 <= i < |dom.items| ==> !dom.items[i].on) {
            dom := dom.(mcChk := false);
          }
        case MenuCloseCb => MenuClose();
        case SubMenuCloseCb => SubMenuClose();
        case RnbMenuCloseCb => RnbMenuClose();
        case HistoryMenuCloseCb => HistoryMenuClose();
        case GnbResizeCb => HandleResize(m);
      }
    }

    /** A `resize` event at time `now` reaches the debounced handler. */
    method OnWindowResize(now: int)
      modifies resizeDebouncer
      ensures resizeDebouncer.timeout == GnbUtils.DebounceCall(resizeDebouncer.wait, now, ())
    {
      resizeDebouncer.Call(now, ());
    }

    /**
     * The clock reaches `now`. If the debounced resize is due it runs: the view and device
     * tests are redone with the current widths and `gnbResize` is (re)scheduled.
     */
    method OnResizeClock(now: int, innerWidth: int, clientWidth: int, isMobileDevice: bool) returns (settled: bool)
      requires Valid()
      modifies this, timerManager, resizeDebouncer
      ensures Valid()
      ensures resizeDebouncer.timeout == GnbUtils.DebounceTick(old(resizeDebouncer.timeout), now).0
      ensures settled <==> GnbUtils.DebounceTick(old(resizeDebouncer.timeout), now).1.Some?
      ensures settled ==>
        state == old(state).(isMobile := GnbUtils.IsMobileView(innerWidth, clientWidth), isMobileDevice := isMobileDevice)
        && timerManager.Model() == TimerSpec.Start(old(timerManager.Model()), TimerName(GnbResizeCb))
      ensures !settled ==> state == old(state) && timerManager.Model() == old(timerManager.Model())
      ensures dom == old(dom) && gnbType == old(gnbType) && currentPageType == old(currentPageType)
    {
      var invoked := resizeDebouncer.Tick(now);
      settled := invoked.Some?;
      if settled {
        state := state.(isMobile := GnbUtils.IsMobileView(innerWidth, clientWidth), isMobileDevice := isMobileDevice);
        TimerSpec.StartPreservesInv(timerManager.Model(), TimerName(GnbResizeCb));
        timerManager.Start(TimerName(GnbResizeCb));
      }
    }

    /**
     * A `scroll.gnb` event at time `now` reaches the throttled handler: the throttle's
     * reset runs if due, then `handleScroll` runs unless the handler is in throttle.
     */
    method OnWindowScroll(now: int, targetIsDocument: bool, m: Measures) returns (ran: bool, handled: bool)
      modifies this, scrollThrottler
      ensures (scrollThrottler.Model(), ran) ==
        GnbUtils.ThrottleCall(GnbUtils.ThrottleTick(old(scrollThrottler.Model()), now), scrollThrottler.limit, now)
      ensures handled <==> ran && ScrollHandled(targetIsDocument, old(dom).hidS)
      ensures dom == if handled then ScrollUpdate(old(dom), state, m) else old(dom)
      ensures state == old(state) && gnbType == old(gnbType) && currentPageType == old(currentPageType)
    {
      scrollThrottler.Tick(now);
      ran := scrollThrottler.Call(now);
      handled := false;
      if ran {
        handled := HandleScroll(targetIsDocument, m);
      }
    }

    /** `destroy`: every timer is stopped and forgotten. Unbinding the event handlers is not modelled. */
    method Destroy()
      requires Valid()
      modifies timerManager
      ensures Valid()
      ensures timerManager.Model() == TimerSpec.Destroy(old(timerManager.Model()))
      ensures timerManager.Model().live == map[]
    {
      TimerSpec.DestroyEmpties(timerManager.Model());
      timerManager.Destroy();
    }
  }
}
