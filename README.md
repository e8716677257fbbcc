# Navigation bar controller and Little Prince chat servers, modelled in Dafny

This project models four small programs from one repository and proves properties about
them.

- **The global navigation bar script** (`sExam/CMS/m00_a.js`). It covers:
  - the `GnbUtils` helpers: viewport width, `debounce` and `throttle`;
  - the `TimerManager`, a registry of named `setTimeout` timers;
  - the `YouTubePlayerManager`;
  - the `GNBController`: its state, its six named timers, its page-type classification, its menu, search, side-panel and history handlers, its sticky-header arithmetic, and its version check.

  The page is the value `GnbDom.Dom`. The controller's handlers replace it as a whole. What the browser measures when an event arrives (scroll position, element heights) is an argument.
- **The two Little Prince chat servers** (`sExam/chapter02/chat_bot4_little_prince_web_ui.py` and `..._web_uiV2.py`). The model covers:
  - the module-global conversation history, its truncation to 20 entries, and the rendering of the chat container;
  - for the streaming server, the server-sent-event frames it yields, with Python's `json.dumps` string escaping and the client's `JSON.parse` reading them back.
- **The rock-paper-scissors tool** (`sExam/chapter03/tool/langchain_rock_paper_scissors.py`): `judge` with Python's `str.strip`, and the range of `rps`.
- **The language branch** (`sExam/chapter03/runnable/langchain_runnable_branch.py`): `is_english` and the prompt the branch chooses.

Modules:

| module | file | what it models |
|---|---|---|
| `Wrappers` | wrappers.dfy | `Option` and `Result` |
| `TimerSpec` | timer_spec.dfy | the timer registry as a value, the browser's table of live timeouts, and the registry invariant |
| `Timers` | timer_manager.dfy | class `TimerManager`, with each method proved against `TimerSpec` |
| `GnbUtils` | gnb_utils.dfy | the mobile breakpoint; `debounce` and `throttle` as timed state machines (values) and as classes |
| `YouTube` | youtube.dfy | class `YouTubePlayerManager` |
| `GnbDom` | gnb_dom.dfy | the page as a value, the pure transitions, page-type classification, header arithmetic, the version check |
| `Gnb` | gnb_controller.dfy | class `GNBController` and the callbacks its timers run |
| `ChatHistory` | chat_history.dfy | the history and its rendering, shared by both servers |
| `LittlePrinceChat` | little_prince_chat.dfy | the form-based server |
| `PyJson` | py_json.dfy | `json.dumps` string escaping and the `JSON.parse` string decoding |
| `LittlePrinceStream` | little_prince_stream.dfy | the streaming server |
| `RockPaperScissors` | rock_paper_scissors.dfy | `strip`, `judge`, `rps` |
| `LanguageBranch` | language_branch.dfy | `is_english`, the branch and its prompts |

How the browser's timing is modelled:

- A `setTimeout` returns a fresh handle from a counter, and registers that handle in a table of live timeouts.
- `clearTimeout` removes the handle from the table.
- The browser firing a timeout is an explicit step (`Fire`, `OnTimeout`). It runs the callback of that handle, if the handle is still live.
- `debounce` and `throttle` keep their own clock: every call and every tick carries the current time.

Behaviour of the code as written, which the model follows:

- In the `mouseenter` handler, the `hid_s` guard can never be false. The selected element is never `.no-child`, and `hasClass` on an empty selection is false. So hovering any top-level item, even one without children, locks page scrolling (`GnbDom.EnterNoChildItemLocksScroll`).
- `TimerManager.create` over a name whose timeout is still pending does not clear that timeout. After a `start`, two timeouts of the name are live (`TimerSpec.CreateOverPendingLeaksTimeout`).
- The streaming server truncates the history before the stream, and appends the assistant turn after it. Between requests that do not overlap, the history can therefore hold 21 entries (`LittlePrinceStream.RequestStepLength`).

## Model

| member | source | states |
|---|---|---|
| GnbUtils.IsMobileView | sExam/CMS/m00_a.js:85-87 | the view is mobile exactly when both the window's inner width and the document's client width are at most 1024 |
| GnbUtils.DebounceBurstCoalesces | sExam/CMS/m00_a.js:41-51 | a burst of calls each closer than `wait` to the last one runs nothing and leaves a single pending call: the last call's arguments, due `wait` after it |
| GnbUtils.DebounceFiresOnceAfterQuiet | sExam/CMS/m00_a.js:44-49 | once due, the pending call runs with its arguments exactly once, and a later tick runs nothing |
| GnbUtils.Debouncer.constructor | sExam/CMS/m00_a.js:41-42 | a debounced function starts with no pending call |
| GnbUtils.Debouncer.Call | sExam/CMS/m00_a.js:48-49 | a call clears the pending timeout and schedules `later` `wait` ms from now with the new arguments |
| GnbUtils.Debouncer.Tick | sExam/CMS/m00_a.js:44-47 | when the pending call is due it runs with its arguments and nothing stays pending |
| GnbUtils.ThrottleSpacing | sExam/CMS/m00_a.js:53-62 | over sorted call times, the throttled function runs at a subset of those times, each run at least `limit` after the previous one, and an idle throttle runs the first call |
| GnbUtils.ThrottleNextCall | sExam/CMS/m00_a.js:53-62 | after any calls, the next call runs exactly when it comes at least `limit` after the last run (or, before any run, once the initial throttle is released): a call past the window is never dropped, one inside it always is |
| GnbUtils.ThrottleRunSnoc | sExam/CMS/m00_a.js:53-62 | one more call keeps the earlier runs and is decided by the state they left |
| GnbUtils.ThrottleAfterShape | sExam/CMS/m00_a.js:53-62 | after a run of calls `inThrottle` is as it started if nothing ran, and otherwise set until `limit` after the last run |
| GnbUtils.Throttler.constructor | sExam/CMS/m00_a.js:53-54 | a throttled function starts out of throttle |
| GnbUtils.Throttler.Call | sExam/CMS/m00_a.js:55-60 | a call runs only when not in throttle, and then enters throttle for `limit` ms |
| GnbUtils.Throttler.Tick | sExam/CMS/m00_a.js:59 | the throttle is released once `limit` ms have passed |
| TimerSpec.EmptyInv | sExam/CMS/m00_a.js:139-141 | a new manager satisfies the registry invariant |
| TimerSpec.UnknownNameIgnored | sExam/CMS/m00_a.js:163-169 | `start` and `stop` on a name never created change nothing |
| TimerSpec.StopIdempotent | sExam/CMS/m00_a.js:152-157 | `stop` twice is `stop` once |
| TimerSpec.StartSchedulesOnlyNewTimeout | sExam/CMS/m00_a.js:148-151 | `start` clears the old timeout, so the only live timeout of the name is the new one; it carries the entry's callback, and every other entry and timeout is untouched |
| TimerSpec.StopPreservesInv | sExam/CMS/m00_a.js:152-157 | `stop` keeps the registry invariant |
| TimerSpec.StartPreservesInv | sExam/CMS/m00_a.js:148-151 | `start` keeps the registry invariant |
| TimerSpec.FirePreservesInv | sExam/CMS/m00_a.js:150 | a timeout firing keeps the invariant and the entries; a callback runs exactly when the handle is live |
| TimerSpec.CreatePreservesInv | sExam/CMS/m00_a.js:143-161 | `create` keeps the invariant when the name has no live timeout |
| TimerSpec.AtMostOneLivePerName | sExam/CMS/m00_a.js:148-151 | under the invariant, no name has two live timeouts |
| TimerSpec.DoubleStartFiresOnce | sExam/CMS/m00_a.js:148-151 | after two `start`s, only the second timeout can fire; the first handle runs nothing |
| TimerSpec.StartThenStopCancels | sExam/CMS/m00_a.js:163-169 | a `start` followed by `stop` leaves the live timeouts and the entries as a lone `stop` would |
| TimerSpec.HandlesOfAll | sExam/CMS/m00_a.js:171-173 | every live timeout is the handle of some entry |
| TimerSpec.StopAllClears | sExam/CMS/m00_a.js:171-173 | `stopAll` keeps every name and callback, clears every handle, and leaves no live timeout |
| TimerSpec.DestroyEmpties | sExam/CMS/m00_a.js:175-178 | `destroy` leaves no entry and no live timeout |
| TimerSpec.CreateOverPendingLeaksTimeout | sExam/CMS/m00_a.js:143-161 | re-creating a name whose timeout is pending, then starting it, leaves two live timeouts for that name |
| Timers.TimerManager.constructor | sExam/CMS/m00_a.js:139-141 | a new manager is the empty registry |
| Timers.TimerManager.Create | sExam/CMS/m00_a.js:143-161 | the manager's state becomes the registry's `create` |
| Timers.TimerManager.Stop | sExam/CMS/m00_a.js:167-169 | the manager's state becomes the registry's `stop` |
| Timers.TimerManager.SetTimeout | sExam/CMS/m00_a.js:150 | a fresh handle is issued, and it is live with the name and callback |
| Timers.TimerManager.Start | sExam/CMS/m00_a.js:163-165 | the manager's state becomes the registry's `start` |
| Timers.TimerManager.StopAll | sExam/CMS/m00_a.js:171-173 | the loop over the entries yields the registry's `stopAll` |
| Timers.TimerManager.Destroy | sExam/CMS/m00_a.js:175-178 | the manager's state becomes the registry's `destroy` |
| Timers.TimerManager.Fire | sExam/CMS/m00_a.js:150 | the browser firing handle `h` runs the registry's `Fire` step |
| YouTube.RegisterContents | sExam/CMS/m00_a.js:207-219 | registering keeps the old players in front and adds exactly the listed ids present in the page, without duplicates |
| YouTube.RegisterStep | sExam/CMS/m00_a.js:208-213 | visiting one more id registers it exactly when its element is present and it is not yet registered |
| YouTube.ClearReadyContents | sExam/CMS/m00_a.js:208-212 | after visiting the ids, each present one has a cleared ready flag and every other flag is unchanged |
| YouTube.ClearReadyStep | sExam/CMS/m00_a.js:212 | visiting one more present id clears its flag |
| YouTube.ReadyInOrderExactly | sExam/CMS/m00_a.js:221-227 | the players stopped are exactly the registered ones marked ready, each once |
| YouTube.ReadyInOrderAppend | sExam/CMS/m00_a.js:221-227 | a player added last is stopped last, if it is ready |
| YouTube.YouTubePlayerManager.constructor | sExam/CMS/m00_a.js:185-189 | a new manager has no players and no ready states |
| YouTube.YouTubePlayerManager.InitializePlayers | sExam/CMS/m00_a.js:207-219 | the players and the ready flags become those the visit of the listed ids produces (`Register`, `ClearReady`), the manager stays valid, and a player is registered exactly when it was already or its element is present |
| YouTube.YouTubePlayerManager.OnReady | sExam/CMS/m00_a.js:215 | the `onReady` event marks that player ready and nothing else |
| YouTube.YouTubePlayerManager.StopAll | sExam/CMS/m00_a.js:221-227 | the players whose video is stopped are exactly the ready ones, in registration order |
| YouTube.YouTubePlayerManager.StopPlayer | sExam/CMS/m00_a.js:229-234 | a player is stopped exactly when it is registered and ready |
| GnbDom.EnterTopItemEffect | sExam/CMS/m00_a.js:404-429 | hovering item `k` selects it if it has children, deselects every other item with children, closes all panels and locks scrolling; no other part of the page changes |
| GnbDom.EnterTopItemExclusive | sExam/CMS/m00_a.js:412-419 | after hovering, an item with children is `on` exactly when it is the hovered one |
| GnbDom.EnterNoChildItemLocksScroll | sExam/CMS/m00_a.js:410-425 | hovering a `.no-child` item still sets `hid_s`, and leaves no item with children `on` |
| GnbDom.CloseAllMenusEffect | sExam/CMS/m00_a.js:589-593 | after `closeAllMenus` the side panel and history are closed and the search box is not shown; the menu is untouched |
| GnbDom.CloseAllMenusFrame | sExam/CMS/m00_a.js:589-593 | `closeAllMenus` changes only the side panel, the search box with its button and query, the history panel and `hid_s`; everything else on the page is unchanged |
| GnbDom.MenuCloseEffect | sExam/CMS/m00_a.js:522-527 | `menuClose` leaves every item off and not selected, and changes nothing else |
| GnbDom.SubMenuCloseGuard | sExam/CMS/m00_a.js:529-532 | with focus inside, `subMenuClose` changes nothing; otherwise every offering list closes |
| GnbDom.FirstMatch | sExam/CMS/m00_a.js:349-353 | the result is the first index whose `menuId` equals the current page, or none when no entry matches |
| GnbDom.BeforeUnderscore | sExam/CMS/m00_a.js:357 | `split('_')[0]` is the longest prefix without `_`, followed by `_` when it is shorter than the string |
| GnbDom.HeadIs | sExam/CMS/m00_a.js:357 | the head of a type is `p` exactly when the type is `p` or starts with `p_` |
| GnbDom.HeadStarts | sExam/CMS/m00_a.js:357 | the head is the whole type, or it is followed by `_` |
| GnbDom.StartsWithHead | sExam/CMS/m00_a.js:357 | a type that is `p`, or starts with `p_`, has head `p` |
| GnbDom.HeadMatchesPrefix | sExam/CMS/m00_a.js:357 | a prefix without `_`, followed by the end or by `_`, is the head |
| GnbDom.GnbTypeOfPrefix | sExam/CMS/m00_a.js:357-360 | the bar type is static, offering or normal exactly when the page type is that word or starts with it and `_`; every other type is main |
| GnbDom.OfferingExample | sExam/CMS/m00_a.js:357-360 | `offering_sub` selects the offering bar |
| GnbDom.CustomExample | sExam/CMS/m00_a.js:357-360 | `custom_foo` selects the main bar |
| GnbDom.StaticExample | sExam/CMS/m00_a.js:357-360 | `static` selects the static bar |
| GnbDom.ClassifyFirstWins | sExam/CMS/m00_a.js:351-362 | the first matching menu entry decides the type and page type, whatever follows it |
| GnbDom.GnbOffsetRegimes | sExam/CMS/m00_a.js:627-629 | the bar follows the header while it is in view, is pinned at 0 up to 60 px, then parks above the viewport at `-(height + 1 + tail)` |
| GnbDom.GnbOffsetTracksHeader | sExam/CMS/m00_a.js:627-629 | while the header is in view, scrolling by `delta` raises the bar by exactly `delta` |
| Gnb.ScrollChkFollowsHeader | sExam/CMS/m00_a.js:610-629 | `scroll_chk` is on exactly when the page is not scrolled down, and then the bar sits at the header's top raised by the tail box; only the class and the bar's `top` change |
| Gnb.MobileIgnoresTail | sExam/CMS/m00_a.js:622-629 | on a mobile view `tail_chk` and the height of `.tail_wrap` do not move the bar: its `top` is the one computed without a tail box |
| GnbDom.SetGnbHeight | sExam/CMS/m00_a.js:664-685 | `#header` gets the bar's height exactly for a non-main bar with a non-zero height, and `--headerH` is that height or else the header's own |
| GnbDom.Includes | sExam/CMS/m00_a.js:706 | `includes` holds exactly when the needle occurs at some position |
| GnbDom.SomeIncluded | sExam/CMS/m00_a.js:706-709 | `some(...includes(prefix + needle))` holds exactly when one of the needles occurs after the prefix |
| GnbDom.CheckGnbVersion | sExam/CMS/m00_a.js:700-714 | the 2024 classes are added exactly when the address contains a development port or does not contain `samsungsds.com/cn` |
| GnbDom.DevPortGetsVersion | sExam/CMS/m00_a.js:702-711 | any address with `:7000/`, `:8001/` or `:8002/` gets the 2024 classes |
| GnbDom.ChinaSiteKeepsOldVersion | sExam/CMS/m00_a.js:703-711 | the China site without a development port keeps the old bar |
| Gnb.InitialRegistryCorrect | sExam/CMS/m00_a.js:303-318 | after `initializeTimers` exactly the six names are registered, each with its callback and a 100 ms delay, and nothing is pending |
| Gnb.InitialEntries | sExam/CMS/m00_a.js:303-318 | after `initializeTimers` each callback sits under its own name with its configured delay and no pending timeout |
| Gnb.TimerNameInjective | sExam/CMS/m00_a.js:306-317 | the six timer names are distinct |
| Gnb.LeaveThenFireRunsMenuClose | sExam/CMS/m00_a.js:431-434 | when the timeout started by `mouseleave` fires, the callback that runs is `menuClose` |
| Gnb.ApplyHeight | sExam/CMS/m00_a.js:679-684 | `--headerH` is always written, `#header` only when a height was set, and nothing else changes |
| Gnb.ResizeEffect | sExam/CMS/m00_a.js:642-658 | after `handleResize`: side panel closed, scrolling unlocked, `--headerH` set, `hid_sm` following the device; on mobile the desktop offering lists close, on desktop the bar is positioned; menu, search and history untouched by the modelled steps (`setDefaultSearchBox` and `gnbChildpanelStyle` are left out) |
| Gnb.ResizeKeepsMainHeader | sExam/CMS/m00_a.js:664-685 | on a main bar, a resize never writes `#header`, and `--headerH` takes the header's height |
| Gnb.GNBController.constructor | sExam/CMS/m00_a.js:241-276 | the initial state: mobile by the breakpoint, focus flags false, type main with no page type, the six timers registered, no players, the resize handler debounced by 200 ms and the scroll handler throttled to 16 ms |
| Gnb.GNBController.InitializeTimers | sExam/CMS/m00_a.js:303-318 | the six `create` calls in order |
| Gnb.GNBController.DetermineGnbType | sExam/CMS/m00_a.js:348-364 | the loop with `break` yields the classification by the first matching entry, and leaves type and page type unchanged when none matches |
| Gnb.GNBController.InitYouTube | sExam/CMS/m00_a.js:191-198 | the players present in the page are registered, and each of them starts out not ready while every other ready flag is unchanged |
| Gnb.GNBController.CheckGnbVersion | sExam/CMS/m00_a.js:700-714 | the page gets the 2024 classes exactly when the version check holds |
| Gnb.GNBController.MenuEnter | sExam/CMS/m00_a.js:404-429 | `menuClose` is stopped, the page becomes the hover transition, and the ready players are stopped |
| Gnb.GNBController.MenuLeave | sExam/CMS/m00_a.js:431-434 | `menuClose` is (re)started |
| Gnb.GNBController.MenuClose | sExam/CMS/m00_a.js:522-527 | the page becomes `menuClose` of the old page |
| Gnb.GNBController.SubMenuClose | sExam/CMS/m00_a.js:529-532 | the page becomes `subMenuClose` under the focus flag |
| Gnb.GNBController.SearchBoxClose | sExam/CMS/m00_a.js:534-555 | the page becomes `searchBoxClose` for the current view |
| Gnb.GNBController.CleanupSearchBox | sExam/CMS/m00_a.js:557-561 | scrolling unlocked and the query cleared |
| Gnb.GNBController.RnbMenuClose | sExam/CMS/m00_a.js:563-574 | the page becomes `rnbMenuClose` |
| Gnb.GNBController.HistoryMenuClose | sExam/CMS/m00_a.js:576-587 | the page becomes `historyMenuClose` |
| Gnb.GNBController.CloseAllMenus | sExam/CMS/m00_a.js:589-593 | the page becomes `closeAllMenus` |
| Gnb.GNBController.SetGnbHeight | sExam/CMS/m00_a.js:664-685 | the page gets the header height update |
| Gnb.GNBController.SetSticky | sExam/CMS/m00_a.js:687-698 | header height, then position, then scroll class |
| Gnb.GNBController.HandleScroll | sExam/CMS/m00_a.js:599-608 | the event is handled exactly for the document with scrolling unlocked, and otherwise the page is unchanged |
| Gnb.GNBController.HandleResize | sExam/CMS/m00_a.js:642-658 | the page becomes the resize transition |
| Gnb.GNBController.OnTimeout | sExam/CMS/m00_a.js:306-317 | a live timeout runs its registered callback on the page; a stale one does nothing |
| Gnb.GNBController.OnWindowResize | sExam/CMS/m00_a.js:382-388 | a resize event reschedules the debounced handler |
| Gnb.GNBController.OnResizeClock | sExam/CMS/m00_a.js:382-386 | when the debounced handler runs, the view and device flags are recomputed and `gnbResize` is started; otherwise nothing changes |
| Gnb.GNBController.OnWindowScroll | sExam/CMS/m00_a.js:390-394 | a scroll event reaches `handleScroll` only out of throttle |
| Gnb.GNBController.Destroy | sExam/CMS/m00_a.js:720-724 | every timer is stopped and forgotten, and no timeout stays live |
| ChatHistory.KeepLatestSuffix | sExam/chapter02/chat_bot4_little_prince_web_ui.py:146-147 | truncation keeps the most recent entries in order: all of them up to 20, else exactly 20 |
| ChatHistory.KeepLatestIdempotent | sExam/chapter02/chat_bot4_little_prince_web_ui.py:146-147 | truncating twice is truncating once |
| ChatHistory.KeepLatestKeepsTail | sExam/chapter02/chat_bot4_little_prince_web_ui.py:143-147 | entries just appended (at most 20) survive truncation at the end |
| ChatHistory.RenderLoop | sExam/chapter02/chat_bot4_little_prince_web_ui.py:53-58 | the loop of `read_root` builds exactly the rendering of the history: one paragraph per entry, in order, labelled by role |
| ChatHistory.RenderAppend | sExam/chapter02/chat_bot4_little_prince_web_ui.py:53-58 | rendering distributes over concatenation of histories |
| ChatHistory.RenderSnoc | sExam/chapter02/chat_bot4_little_prince_web_ui.py:54-58 | the loop's step: appending an entry appends its paragraph |
| ChatHistory.RenderFirst | sExam/chapter02/chat_bot4_little_prince_web_ui.py:54-58 | a non-empty history renders its first entry first |
| ChatHistory.RenderAt | sExam/chapter02/chat_bot4_little_prince_web_ui.py:54-58 | entry `i` renders between the entries before and after it, labelled by its role |
| ChatHistory.ContainerGreetingIff | sExam/chapter02/chat_bot4_little_prince_web_ui.py:120 | the greeting is shown exactly when the history is empty |
| LittlePrinceChat.PageMarkupDistinguishable | sExam/chapter02/chat_bot4_little_prince_web_ui.py:56-58 | no entry paragraph starts like the greeting |
| LittlePrinceChat.ChatStepEndsWithPair | sExam/chapter02/chat_bot4_little_prince_web_ui.py:137-147 | after `chat` the last two entries are the message and the reply, and at most 20 entries remain |
| LittlePrinceChat.ChatStepGrowsByTwo | sExam/chapter02/chat_bot4_little_prince_web_ui.py:137-147 | below the limit, `chat` appends exactly the two entries |
| LittlePrinceChat.ChatStepDropsOldest | sExam/chapter02/chat_bot4_little_prince_web_ui.py:146-147 | past the limit, the oldest entries go and 20 remain |
| LittlePrinceChat.ChatStepRendersPairLast | sExam/chapter02/chat_bot4_little_prince_web_ui.py:137-149 | for every history, the page after `chat` shows the old entries that stayed (all of them below the limit, the latest 18 at it), then the message and the reply |
| LittlePrinceChat.ChatServer.constructor | sExam/chapter02/chat_bot4_little_prince_web_ui.py:37 | the history starts empty |
| LittlePrinceChat.ChatServer.ReadRoot | sExam/chapter02/chat_bot4_little_prince_web_ui.py:52-58 | the loop yields the rendered history, and the greeting exactly when it is empty |
| LittlePrinceChat.ChatServer.Chat | sExam/chapter02/chat_bot4_little_prince_web_ui.py:132-149 | message and reply appended then truncated, and the page rendered; a failed model call leaves the message appended and no page |
| PyJson.EscapeCharPrintable | sExam/chapter02/chat_bot4_little_prince_web_uiV2.py:55 | each character escapes to non-empty printable ASCII |
| PyJson.EscapePrintable | sExam/chapter02/chat_bot4_little_prince_web_uiV2.py:55 | `json.dumps` output is printable ASCII, so it holds no line break |
| PyJson.Hex4RoundTrip | sExam/chapter02/chat_bot4_little_prince_web_uiV2.py:228 | four hex digits read back as the number written |
| PyJson.UnescapeEscapeChar | sExam/chapter02/chat_bot4_little_prince_web_uiV2.py:228 | decoding one character's escape reads that character, surrogate pairs included |
| PyJson.UnescapeShortForm | sExam/chapter02/chat_bot4_little_prince_web_uiV2.py:228 | the two-character escapes (`\"`, `\\`, `\n`, `\r`, `\t`, `\b`, `\f`) read back as the character they stand for |
| PyJson.UnescapeBmp | sExam/chapter02/chat_bot4_little_prince_web_uiV2.py:228 | a `\uXXXX` escape of a character below U+10000 reads back as that character |
| PyJson.UnescapeSingle | sExam/chapter02/chat_bot4_little_prince_web_uiV2.py:228 | one `\u` escape of a code point outside the surrogate range reads as that character |
| PyJson.UnescapeSurrogatePair | sExam/chapter02/chat_bot4_little_prince_web_uiV2.py:228 | a character above U+FFFF, written as a surrogate pair, reads back as that one character |
| PyJson.UnescapePair | sExam/chapter02/chat_bot4_little_prince_web_uiV2.py:228 | two `\u` escapes holding a high and a low surrogate decode to the character they combine into |
| PyJson.UnescapeEscape | sExam/chapter02/chat_bot4_little_prince_web_uiV2.py:228 | what `json.dumps` writes, `JSON.parse` reads back unchanged |
| PyJson.EscapeExamples | sExam/chapter02/chat_bot4_little_prince_web_uiV2.py:55 | quote, newline and Hangul escapes as `json.dumps` writes them |
| LittlePrinceStream.PageMarkupDistinguishable | sExam/chapter02/chat_bot4_little_prince_web_uiV2.py:169 | no entry `div` starts like the greeting |
| LittlePrinceStream.TextFramesSnoc | sExam/chapter02/chat_bot4_little_prince_web_uiV2.py:52-55 | one more chunk appends exactly its own frame after the earlier ones |
| LittlePrinceStream.FrameShape | sExam/chapter02/chat_bot4_little_prince_web_uiV2.py:55-58 | a frame is its prefix, the escaped payload and the closing quote, brace and blank line |
| LittlePrinceStream.FrameRoundTrip | sExam/chapter02/chat_bot4_little_prince_web_uiV2.py:224-228 | the client parses every frame back into the event it encodes |
| LittlePrinceStream.EscapeOneLine | sExam/chapter02/chat_bot4_little_prince_web_uiV2.py:55 | the escaped text inside a frame holds no line break |
| LittlePrinceStream.FrameIsOneLine | sExam/chapter02/chat_bot4_little_prince_web_uiV2.py:55 | a frame holds no line break before its final blank line, so splitting on newlines keeps it whole |
| LittlePrinceStream.ConcatSnoc | sExam/chapter02/chat_bot4_little_prince_web_uiV2.py:53 | `full_response` grows by each chunk in turn |
| LittlePrinceStream.StreamFramesParse | sExam/chapter02/chat_bot4_little_prince_web_uiV2.py:41-58 | the stream parses as one text event per chunk, then a `done` event with the concatenation of all chunks |
| LittlePrinceStream.StreamChatStepBounded | sExam/chapter02/chat_bot4_little_prince_web_uiV2.py:268-276 | after `stream_chat` the message is last, a missing `message` is the empty string, and at most 20 entries remain |
| LittlePrinceStream.RequestStepLength | sExam/chapter02/chat_bot4_little_prince_web_uiV2.py:61 | after a whole request that does not overlap another, the history holds up to 21 entries, exactly 21 once it had 19, and ends with the full reply |
| LittlePrinceStream.StreamServer.constructor | sExam/chapter02/chat_bot4_little_prince_web_uiV2.py:38 | the history starts empty |
| LittlePrinceStream.StreamServer.StreamChat | sExam/chapter02/chat_bot4_little_prince_web_uiV2.py:263-276 | the message is appended and the history truncated |
| LittlePrinceStream.StreamServer.ChatbotStreamResponse | sExam/chapter02/chat_bot4_little_prince_web_uiV2.py:41-61 | the loop yields the stream's frames in order, and the full reply is appended without truncation |
| LittlePrinceStream.StreamServer.ReadRoot | sExam/chapter02/chat_bot4_little_prince_web_uiV2.py:65-71 | the loop yields the rendered history, and the greeting exactly when it is empty |
| RockPaperScissors.StripStartSpec | sExam/chapter03/tool/langchain_rock_paper_scissors.py:41-42 | what is dropped in front is whitespace, and what remains does not start with whitespace |
| RockPaperScissors.StripEndSpec | sExam/chapter03/tool/langchain_rock_paper_scissors.py:41-42 | what is dropped at the end is whitespace, and what remains does not end with whitespace |
| RockPaperScissors.Strip | sExam/chapter03/tool/langchain_rock_paper_scissors.py:41-42 | the stripped string neither starts nor ends with whitespace |
| RockPaperScissors.StripFramed | sExam/chapter03/tool/langchain_rock_paper_scissors.py:41-42 | the input is whitespace, then the stripped string, then whitespace |
| RockPaperScissors.StripIdempotent | sExam/chapter03/tool/langchain_rock_paper_scissors.py:41-42 | stripping twice is stripping once |
| RockPaperScissors.NothingToStrip | sExam/chapter03/tool/langchain_rock_paper_scissors.py:41-42 | a string without outer whitespace is unchanged |
| RockPaperScissors.StripPadded | sExam/chapter03/tool/langchain_rock_paper_scissors.py:41-42 | stripping removes exactly the surrounding whitespace |
| RockPaperScissors.AllSpaceStrips | sExam/chapter03/tool/langchain_rock_paper_scissors.py:41-42 | a string of whitespace strips to nothing |
| RockPaperScissors.Rps | sExam/chapter03/tool/langchain_rock_paper_scissors.py:22-24 | `rps` returns one of 가위, 바위 and 보 |
| RockPaperScissors.Judge | sExam/chapter03/tool/langchain_rock_paper_scissors.py:39-55 | the outcome is one of 무승부, 승리 and 패배, and it is 무승부 exactly when the stripped hands are equal |
| RockPaperScissors.HandsStripped | sExam/chapter03/tool/langchain_rock_paper_scissors.py:22-24 | every hand `rps` returns is unchanged by stripping |
| RockPaperScissors.JudgeCycle | sExam/chapter03/tool/langchain_rock_paper_scissors.py:44-55 | numbering the hands as `rps` lists them: a draw on the same hand, a win one step ahead modulo 3, a loss otherwise |
| RockPaperScissors.JudgeAntisymmetric | sExam/chapter03/tool/langchain_rock_paper_scissors.py:47-55 | for two different hands, `judge(a, b)` is 승리 exactly when `judge(b, a)` is 패배 |
| RockPaperScissors.JudgeWinIff | sExam/chapter03/tool/langchain_rock_paper_scissors.py:47-52 | 승리 exactly for the stripped pairs (가위, 보), (바위, 가위) and (보, 바위) |
| RockPaperScissors.UnrecognisedLoses | sExam/chapter03/tool/langchain_rock_paper_scissors.py:54-55 | input that strips to no hand loses against every choice of `rps` |
| RockPaperScissors.StripIgnoresPadding | sExam/chapter03/tool/langchain_rock_paper_scissors.py:41-42 | `strip()` of a string with extra whitespace on either side is `strip()` of the string |
| RockPaperScissors.JudgeIgnoresPadding | sExam/chapter03/tool/langchain_rock_paper_scissors.py:41-42 | whitespace around the user's hand does not change the outcome |
| RockPaperScissors.JudgeExamples | sExam/chapter03/tool/langchain_rock_paper_scissors.py:39-55 | sample outcomes, including padded and unrecognised input |
| LanguageBranch.IsEnglish | sExam/chapter03/runnable/langchain_runnable_branch.py:27-30 | the test fails with `KeyError('word')` exactly when `word` is missing |
| LanguageBranch.IsAsciiWordIff | sExam/chapter03/runnable/langchain_runnable_branch.py:30 | the word is English exactly when every character has a code point below 128 |
| LanguageBranch.EmptyIsEnglish | sExam/chapter03/runnable/langchain_runnable_branch.py:30 | the empty word counts as English |
| LanguageBranch.IsAsciiWordConcat | sExam/chapter03/runnable/langchain_runnable_branch.py:30 | a concatenation is English exactly when both parts are |
| LanguageBranch.NonAsciiCharacter | sExam/chapter03/runnable/langchain_runnable_branch.py:30 | one character at 128 or above anywhere makes the word non-English |
| LanguageBranch.Examples | sExam/chapter03/runnable/langchain_runnable_branch.py:51-57 | `happy` is English and `행복` is not |
| LanguageBranch.SelectBranch | sExam/chapter03/runnable/langchain_runnable_branch.py:45-48 | the English branch is chosen exactly when every character of `word` is ASCII; a missing `word` is an error |
| LanguageBranch.Prompt | sExam/chapter03/runnable/langchain_runnable_branch.py:32-48 | a prompt is produced exactly when `word` is present |
| LanguageBranch.PromptFollowsIsEnglish | sExam/chapter03/runnable/langchain_runnable_branch.py:45-48 | the English prompt follows a true `is_english`, the Korean prompt a false one |
| LanguageBranch.PromptExamples | sExam/chapter03/runnable/langchain_runnable_branch.py:51-58 | `happy` gets the English prompt and `행복` the Korean one |

## Left out

- Browser and network I/O:
  - `GnbApiService`, `loadData`, `loadScript`, `getQueryParams` and `YouTubePlayerManager.loadAPI`. They fetch, parse or inject scripts.
  - The menu arrives as a sequence of (menuId, type) entries; `OBJtoXML` and `$.parseXML` are not modelled.
- `GnbUtils.isMobileDevice`: a user-agent regular expression. Its result is an input.
- Real time:
  - Timeouts fire only when `Fire`/`OnTimeout` is called.
  - The debounce and throttle clocks are separate parameters, not one shared clock.
- Pixel values are integers: jQuery's fractional heights and CSS strings (`transition`, `position`, `z-index`, `width`) are not modelled.
- Gnb.GNBController.SearchBoxClose: on mobile, the slide-out animation's completion callback (hide and `cleanupSearchBox` after 500 ms) is not modelled. The box stays `SlidingOut`.
- Removing `.search_dim`, clearing the delete button, and `setDefaultRnb` are not modelled. They touch elements outside the `Dom` value.
- These helpers are called from the modelled handlers but not defined in the shown source, so they are not modelled:
  - `gnbItemScrollStyle`, `setDefaultSearchBox`, `setHeightRightContainer`, `gnbChildpanelStyle`, `setSizeSubmenuMobile`, `closeMobileGsnb`;
  - `openSearchBox`, `toggleRnb`, `openHistory`, `clearHistory`, `toggleMobileGsnb`;
  - `drawGnb`, `setOfferingGnbMh`, `setTextByCountry`, `setBreadData`.
- Handlers that only call those helpers are not modelled:
  - search open, the search key and delete handlers;
  - the side-panel button;
  - the history and clear buttons;
  - the mobile sub-menu title;
  - `window.load`.
- YouTube.YouTubePlayerManager.StopAll: the `typeof player.stopVideo === 'function'` test is taken as true for every registered player.
- Gnb.GNBController.Destroy: unbinding the window and element event handlers is not modelled.
- Gnb.GNBController.DetermineGnbType: `current` is the string the page provides. jQuery's `.data()` turns a numeric `data-current` attribute into a number, which would never equal an entry's text, so the type would stay `main`. That case is not modelled.
- Controller properties that no modelled operation reads are not modelled: `lang`, `country`, `data`, `breadData`, `featureData`, `historyMaxCount`, `historyStorageKey`.
- Model calls (`chatbot_response`, the message stream, `llm.invoke`, the synonym chain's model and parser) are not modelled. Their results are inputs: the reply, the chunks and `rps`'s random index.
- Parts of the pages that are not modelled:
  - the HTML outside the chat container;
  - the page's client-side script, except the parsing of one frame;
  - `FastAPI` and `uvicorn`.
- LittlePrinceStream.StreamServer.StreamChat: the body is a string-to-string map, so non-object bodies and non-string `message` values are not modelled.
- LittlePrinceStream.StreamServer.ChatbotStreamResponse: the stream is consumed to its end. Two failures are not modelled. A client that disconnects mid-stream skips the assistant append. A model stream that raises partway has sent the frames so far, sends no `done` frame and skips the assistant append, so the history ends on a user turn (the form-based `Chat` models that failure as `reply == None`).
- Overlapping `/stream` requests are not modelled: each request runs to its end before the next one starts. The program can interleave them, because the generator yields once per chunk after `stream_chat` has returned. Then truncations and assistant appends can alternate, and the history can grow past 21 entries.
- The rock-paper-scissors game loop and its console I/O, and the LangChain `@tool` and `bind_tools` wiring, are not modelled.
- Python's `str` is modelled as a sequence of Unicode scalar values.
