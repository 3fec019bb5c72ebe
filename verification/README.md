# Nova dock (Appsbar.js) in Dafny

Appsbar.js puts a bar at the bottom of a page. The bar holds a clock and a dock of app icons. Each
registered app (a descriptor `{id, title, iconHTML, render}`) gets a dock button and a slide-up
panel `tool-<id>`. This project models the following parts of the script and proves what they
guarantee:

- the app registry: `register`, `get`, `list` and the `window.NovaApps` API;
- icon and panel creation, with its duplicate guards and the error boundary around `render`;
- the panel state machine: `openTool`, `closeTool`, `toggleTool` and `onDockClick`;
- the outside-click and Escape handlers that `init` installs, and `init` itself;
- the clock text of `updateClock` in 12- and 24-hour form;
- the timer list: `loadTimers`, `addTimerFromUI`, the Delete button and `checkTimers`;
- `escapeHtml`.

Modules:

- `Wrappers`: `Option` and `Result`.
- `Html`: `escapeHtml` and its inverse, the browser's reading of the five entities.
- `Registry`: the page state as a value, `DockState`, with every handler as a function on it. It
  also holds the invariant `Valid` and the lemmas about the handlers.
- `Clock`: the clock text and the "HH:MM" minute string.
- `Timers`: the stored timer list and one tick of `checkTimers`.
- `Css`: how a selector `[data-tool="<id>"]` reads the id. Appsbar.js looks up dock buttons
  with this selector.
- `DockUi`: class `Dock`. It has the same fields as `DockState`, plus the storage slot of the timer
  list. Its methods change the fields in place, with the loops of the source. The handler methods are
  proved to have exactly the effect of a `Registry` function. The loop helpers (`CloseOthers`,
  `CreateAll`, `TickOne`, `TickEach`) state their effect field by field. Each method that changes
  storage is proved to save a `Timers` function of the stored list.

The page's DOM is reduced to sets and maps:

- the tool ids that have a dock button;
- the panels, keyed by tool id;
- the tools whose panel has class `open`;
- the tools whose panel is `aria-hidden="true"`;
- the tools whose button has class `active`.

`document.getElementById` on a panel id is `Registry.PanelTool`.

The invariant `Registry.Valid` holds from the loaded page onwards, across any sequence of
registrations, `init` calls and handler calls (`Registry.AtMostOneOpen`). It says:

- the registry lists each id once, and each descriptor is stored under its own id;
- there is exactly one panel per registered app;
- icons exist only for registered apps, and only once the dock exists;
- at most one panel is open;
- `aria-hidden` is set exactly on the closed panels;
- only existing buttons are active.

Where the code and its description differ, the model follows the code:

- `openTool` does not mark the dock icon active. Only `onDockClick` does.
- `onDockClick` marks the clicked icon active even when the click closed its panel
  (`Registry.DockClickOnOpenPanelKeepsActive`). So "active" is not the same as "its panel is open".

## Model

| member | source | states |
|---|---|---|
| Html.EscapeChar | Appsbar.js:57 | each of & < > " ' becomes an entity that starts with & and ends with ;, and every other character is kept; the result holds no < > " ' |
| Html.EscapeHtml | Appsbar.js:57 | the escaped text holds none of < > " ' and is at least as long as the input |
| Html.UnescapeEscapeChar | Appsbar.js:57 | the entity of one character reads back as that character, whatever follows it |
| Html.UnescapeEscapeHtml | Appsbar.js:57 | escaping loses nothing: reading the entities back gives the original text |
| Html.EscapeHtmlAppend | Appsbar.js:57 | escaping a concatenation is concatenating the escaped parts |
| Html.EscapeHtmlFixedPoint | Appsbar.js:57 | the text is unchanged if and only if it holds none of the five characters |
| Registry.ToolIdOf | Appsbar.js:364 | stripping `tool-` gives an id whose panel id is the input; an input without the prefix is kept as it is |
| Registry.ToolIdOfPanelId | Appsbar.js:364 | stripping the prefix from `tool-<id>` gives back id |
| Registry.PanelIdInjective | Appsbar.js:284 | distinct tools have distinct panel ids |
| Registry.PanelTool | Appsbar.js:358-360 | a panel found by getElementById exists and carries that id |
| Registry.PanelToolOfPanelId | Appsbar.js:284-285 | `tool-<id>` finds the panel of tool id exactly when that panel exists |
| Registry.UnloadedIsValid | Appsbar.js:189-190 | the page before any registration satisfies the invariant |
| Registry.Lookup | Appsbar.js:199 | AppRegistry.get; no contract of its own: RegisterThenLookup and DockUi.Dock.Get state what it returns |
| Registry.Listing | Appsbar.js:200 | AppRegistry.list; no contract of its own: ListingIsComplete states what it holds |
| Registry.ListingIsComplete | Appsbar.js:200 | list() holds as many entries as there are registered apps, every registered descriptor, and only descriptors stored under their own id |
| Registry.CreateDockIcon | Appsbar.js:272-280 | createDockIcon; no contract of its own: AdmitFields, AddIconsKeepsValid and RegisterTwiceCreatesOnce state its effect |
| Registry.CreateToolPanel | Appsbar.js:282-320 | createToolPanel; no contract of its own: AdmitFields, RenderErrorIsContained and AdmitKeepsDomValid state its effect |
| Registry.RenderInto | Appsbar.js:309-319 | the body shows the load error if and only if render throws |
| Registry.Register | Appsbar.js:191-198 | AppRegistry.register; no contract of its own: RegisterFailsExactlyOnBadInput, RegisterThenLookup, RegisterTwiceCreatesOnce and AdmitKeepsValid state its properties |
| Registry.Store | Appsbar.js:194 | `apps[def.id] = def`; no contract of its own: StoreKeepsRegistryValid states its effect on the registry |
| Registry.Admit | Appsbar.js:194-197 | what register does once the guard passes; no contract of its own: AdmitFields and AdmitKeepsValid state its effect |
| Registry.RegisterFailsExactlyOnBadInput | Appsbar.js:192 | register fails exactly when the descriptor or its id is missing |
| Registry.RegisterThenLookup | Appsbar.js:191-199 | after register, get(id) returns the new descriptor (overriding any earlier one), and every other id keeps its descriptor |
| Registry.RenderErrorIsContained | Appsbar.js:309-319 | a render that throws does not stop registration, and the new panel shows the error |
| Registry.RegisterTwiceCreatesOnce | Appsbar.js:191-198 | registering an id a second time replaces the descriptor and creates no second icon or panel, and the order is unchanged |
| Registry.StoreKeepsRegistryValid | Appsbar.js:194 | storing a descriptor keeps each id listed once and adds its id to the registered ids |
| Registry.AdmitFields | Appsbar.js:194-197 | field by field, what a registration that passed the guard changes: the descriptor, a new id at the end of the order, an icon only on a mounted dock, a closed aria-hidden panel with the escaped title only if the tool had none; nothing is opened or activated |
| Registry.AdmitKeepsValid | Appsbar.js:191-198 | a registration keeps the invariant |
| Registry.AdmitKeepsDomValid | Appsbar.js:194-197 | a registration keeps the DOM half of the invariant |
| Registry.DomStepKeepsValid | Appsbar.js:323-367 | a handler that changes only the DOM keeps the registry half of the invariant |
| Registry.CloseKeepsDomValid | Appsbar.js:358-367 | closeTool keeps the DOM half of the invariant |
| Registry.CloseKeepsValid | Appsbar.js:358-367 | closeTool keeps the invariant |
| Registry.OpenKeepsDomValid | Appsbar.js:344-356 | openTool keeps the DOM half of the invariant |
| Registry.OpenKeepsValid | Appsbar.js:344-356 | openTool keeps the invariant |
| Registry.ToggleKeepsValid | Appsbar.js:337-342 | toggleTool keeps the invariant |
| Registry.DockClickKeepsDomValid | Appsbar.js:323-334 | a dock click keeps the DOM half of the invariant |
| Registry.DockClickKeepsValid | Appsbar.js:323-334 | a dock click keeps the invariant |
| Registry.DismissKeepsDomValid | Appsbar.js:546-552 | closing all open panels keeps the DOM half of the invariant |
| Registry.DismissKeepsValid | Appsbar.js:546-552 | closing all open panels keeps the invariant |
| Registry.ListedHavePanels | Appsbar.js:543 | every app that init's loop visits is registered under its own id and already has its panel, and the loop visits every registered app |
| Registry.AddIconsKeepsValid | Appsbar.js:543 | adding the icons of registered apps to a mounted dock keeps the invariant |
| Registry.CreateBarKeepsValid | Appsbar.js:212-262 | createBar keeps the invariant and leaves the dock mounted |
| Registry.BootKeepsValid | Appsbar.js:538-543 | init keeps the invariant, leaves the dock mounted, and gives every registered app its icon and no other icon |
| Registry.InitKeepsValid | Appsbar.js:538-543 | as BootKeepsValid, for the two built-in apps Nova Translate and Clock & Timers |
| Registry.Open | Appsbar.js:344-356 | openTool; no contract of its own: OpenClosesOthers, OpenThenOpen, OpenIdempotent, UnknownPanelIsIgnored and OpenKeepsValid state its properties |
| Registry.Close | Appsbar.js:358-367 | closeTool; no contract of its own: CloseProperties, UnknownPanelIsIgnored and CloseKeepsValid state its properties |
| Registry.Toggle | Appsbar.js:337-342 | toggleTool; no contract of its own: ToggleFlips, UnknownPanelIsIgnored and ToggleKeepsValid state its properties |
| Registry.DockClick | Appsbar.js:323-334 | onDockClick; no contract of its own: DockClickMovesActive, DockClickOnOpenPanelKeepsActive and DockClickKeepsValid state its properties |
| Registry.Dismiss | Appsbar.js:546-552 | closeTool on every open panel; no contract of its own: DismissClosesAll and DismissKeepsValid state its effect |
| Registry.DocumentClick | Appsbar.js:546-549 | the document click handler; no contract of its own: OnlyOutsideClickOrEscapeDismisses states its effect |
| Registry.KeyDown | Appsbar.js:552 | the document keydown handler; no contract of its own: OnlyOutsideClickOrEscapeDismisses states its effect |
| Registry.CreateBar | Appsbar.js:212-262 | createBar, which registers the two built-in apps once; no contract of its own: CreateBarKeepsValid states its properties |
| Registry.Boot | Appsbar.js:538-543 | init with its two built-in descriptors as parameters; no contract of its own: BootKeepsValid states its properties |
| Registry.Init | Appsbar.js:538-553 | init; no contract of its own: InitKeepsValid states its properties |
| Registry.OpenClosesOthers | Appsbar.js:344-356 | after openTool the panel is the only open one and is not aria-hidden; every other panel is closed and aria-hidden |
| Registry.OpenThenOpen | Appsbar.js:347 | opening a and then b leaves a closed and b open |
| Registry.OpenIdempotent | Appsbar.js:344-356 | opening a panel twice has the effect of opening it once |
| Registry.CloseProperties | Appsbar.js:358-367 | after closeTool the panel is closed and aria-hidden and its icon is not active; no other panel changes; closing twice is closing once |
| Registry.ToggleFlips | Appsbar.js:337-342 | toggleTool opens a closed panel and closes an open one |
| Registry.UnknownPanelIsIgnored | Appsbar.js:337-360 | openTool, closeTool and toggleTool change nothing for an id that belongs to no panel |
| Registry.DismissClosesAll | Appsbar.js:546-552 | after an outside click or Escape no panel is open and every panel is aria-hidden |
| Registry.OnlyOutsideClickOrEscapeDismisses | Appsbar.js:546-552 | after a click outside every panel and the bar, or after Escape, no panel is open, every panel is aria-hidden, and the buttons of the panels that were open are no longer active; a click inside or another key changes nothing |
| Registry.DockClickMovesActive | Appsbar.js:332-333 | after a dock click exactly the clicked button is active |
| Registry.DockClickOnOpenPanelKeepsActive | Appsbar.js:329-333 | clicking the button of the open panel closes that panel but leaves its button active |
| Registry.UiStepKeepsDomValid | Appsbar.js:323-367 | every DOM handler keeps the DOM half of the invariant and leaves the registry as it is |
| Registry.StepKeepsValid | Appsbar.js:538-553 | any single event (a registration, init, or a handler) keeps the invariant |
| Registry.AtMostOneOpen | Appsbar.js:344-356 | after any sequence of events the invariant still holds and at most one panel is open |
| Clock.Digit | Appsbar.js:431 | a digit value becomes a decimal digit character |
| Clock.DigitValue | Appsbar.js:431 | a decimal digit character has a value below 10 |
| Clock.Numeral | Appsbar.js:430 | String(n) is a non-empty string of digits, one digit below 10 and two below 100 |
| Clock.ReadNumeralOfNumeral | Appsbar.js:435 | String(n) reads back as n |
| Clock.ReadNumeralLeadingZero | Appsbar.js:431 | a leading zero does not change the value read |
| Clock.Pad2 | Appsbar.js:431 | padStart(2, '0') of a number below 100 is two digits that read back as the number |
| Clock.Hour12 | Appsbar.js:430 | the 12-hour form is in 1..12 and agrees with the hour modulo 12 |
| Clock.To24 | Appsbar.js:430-432 | a 12-hour value with its half of the day gives an hour below 24 that is PM exactly when it is at least 12 |
| Clock.TwelveHourLandmarks | Appsbar.js:430-432 | midnight shows 12 AM, noon 12 PM, 1 and 13 show 1, and 23 shows 11 |
| Clock.Meridiem | Appsbar.js:432 | the AM/PM suffix; no contract of its own: MeridiemIsPm and TwelveHourRoundTrip state its properties |
| Clock.MeridiemIsPm | Appsbar.js:432 | the suffix is PM exactly for the hours 12 to 23 and AM for the others |
| Clock.TwelveHourRoundTrip | Appsbar.js:430-432 | the 12-hour value and its suffix determine the hour |
| Clock.Uses24Hour | Appsbar.js:428-429 | `prefs && prefs.format === '24'`, so missing or unreadable preferences give the 12-hour clock; no contract of its own: DockUi.Dock.UpdateClock shows the format it picks |
| Clock.DisplayHour | Appsbar.js:429-430 | the hour shown is below 24 in both formats |
| Clock.ClockText | Appsbar.js:429-435 | the clock text `${hours}:${minutes}${ampm}`; no contract of its own: ReadClockTextRoundTrip states that it reads back as the time |
| Clock.ReadClockTextRoundTrip | Appsbar.js:428-435 | the clock text shows the time unambiguously: hour and minute read back from it in either format |
| Clock.NowString | Appsbar.js:498 | the minute string is five characters with a colon in the middle |
| Clock.NowStringInjective | Appsbar.js:498 | distinct minutes give distinct strings, so a timer matches one minute of the day only |
| Timers.LoadTimers | Appsbar.js:459-462 | loadTimers gives the stored list, and the empty list when nothing is stored or the text does not parse |
| Timers.TrimStart | Appsbar.js:484 | the result is a suffix of the input, what it drops is all white space, and it does not start with white space |
| Timers.TrimEnd | Appsbar.js:484 | the result is a prefix of the input, what it drops is all white space, and it does not end with white space |
| Timers.Trim | Appsbar.js:484 | the trimmed text neither starts nor ends with white space |
| Timers.TrimIsEmptyIffBlank | Appsbar.js:484 | trimming leaves nothing exactly when the text is all white space |
| Timers.LabelOf | Appsbar.js:484 | the label is never empty; it is 'Timer' for a blank input and the trimmed input otherwise |
| Timers.AddTimer | Appsbar.js:483-489 | the list addTimerFromUI saves; no contract of its own: AddTimerAppends states its effect |
| Timers.AddTimerAppends | Appsbar.js:483-493 | without a time the list is unchanged; otherwise exactly one unfired, non-recurring entry with that time and label is added at the end, and the earlier entries are kept |
| Timers.RemoveAt | Appsbar.js:476 | splice(idx, 1) removes one entry when idx is in range and nothing otherwise |
| Timers.RemoveAtKeepsOrder | Appsbar.js:476 | the other entries stay in order, and only the entry at idx leaves the multiset |
| Timers.TickTimer | Appsbar.js:500-510 | after a tick a timer is flagged exactly when it shows this minute, and nothing else about it changes |
| Timers.Firing | Appsbar.js:499-500 | every timer reported as firing shows this minute and had not fired, and there are no more of them than timers |
| Timers.FiringMembers | Appsbar.js:499-500 | a timer fires exactly when it is in the list, shows this minute and has not fired |
| Timers.FiringIsEmpty | Appsbar.js:499-500 | nothing fires exactly when no entry both shows this minute and is unfired |
| Timers.Ticked | Appsbar.js:499-511 | the list checkTimers saves; no contract of its own: TickedIsSettled, SettledIsQuiet, SameMinuteFiresOnce and OtherMinuteRearms state its properties |
| Timers.TickedIsSettled | Appsbar.js:499-511 | after a tick every flag says whether its timer shows this minute |
| Timers.SettledIsQuiet | Appsbar.js:499-511 | a settled list fires nothing in that minute, and ticking it again changes nothing |
| Timers.SettledStaysQuiet | Appsbar.js:499-511 | any number of further ticks in the same minute fire nothing |
| Timers.SameMinuteFiresOnce | Appsbar.js:495-513 | however many ticks fall within one minute, together they fire exactly what the first one fires |
| Timers.OtherMinuteRearms | Appsbar.js:510 | one tick at another minute re-arms every timer of this minute, so it fires again when that minute comes back |
| Timers.DeleteFromSnapshot | Appsbar.js:470-476 | the delete handler as written: it splices the list loaded at render time |
| Timers.StaleDeleteRefires | Appsbar.js:470-476 | for the as-written delete, a timer fires twice in one minute |
| Timers.DeleteFromStore | Appsbar.js:476 | the corrected delete saves the list as stored now, less exactly its entry idx; an index past the end saves it unchanged |
| Timers.DeleteFromStoreKeepsFlags | Appsbar.js:495-512 | with the corrected delete, a timer that fired this minute cannot fire again in the same minute |
| DockUi.Dock.constructor | Appsbar.js:189-190 | the page as loaded: empty registry, no dock yet, the invariant holds |
| DockUi.Dock.Register | Appsbar.js:191-198 | fails exactly when the descriptor or its id is missing, changing nothing; otherwise reports whether an earlier descriptor was overridden (the warning) and has the effect of Registry.Register; keeps the invariant |
| DockUi.Dock.Get | Appsbar.js:199 | returns the descriptor stored under id, and nothing if and only if none is stored |
| DockUi.Dock.List | Appsbar.js:200 | its loop returns Registry.Listing of the state |
| DockUi.Dock.CreateDockIcon | Appsbar.js:272-280 | adds the button unless the dock is missing or the button exists |
| DockUi.Dock.CreateToolPanel | Appsbar.js:282-320 | adds a closed, aria-hidden panel with the escaped title and the render outcome, unless the panel exists |
| DockUi.Dock.CloseTool | Appsbar.js:358-367 | has the effect of Registry.Close |
| DockUi.Dock.CloseOthers | Appsbar.js:347 | its loop closes every open panel except the kept one, and nothing else |
| DockUi.Dock.OpenTool | Appsbar.js:344-356 | has the effect of Registry.Open |
| DockUi.Dock.ToggleTool | Appsbar.js:337-342 | has the effect of Registry.Toggle and keeps the invariant |
| DockUi.Dock.OpenApp | Appsbar.js:206 | has the effect of openTool on `tool-<id>` and keeps the invariant |
| DockUi.Dock.CloseApp | Appsbar.js:207 | has the effect of closeTool on `tool-<id>` and keeps the invariant |
| DockUi.Dock.OnDockClick | Appsbar.js:323-334 | has the effect of Registry.DockClick and keeps the invariant |
| DockUi.Dock.Dismiss | Appsbar.js:546-552 | its loop of closeTool calls has the effect of Registry.Dismiss and keeps the invariant |
| DockUi.Dock.OnDocumentClick | Appsbar.js:546-549 | has the effect of Registry.DocumentClick and keeps the invariant |
| DockUi.Dock.OnKeyDown | Appsbar.js:552 | has the effect of Registry.KeyDown and keeps the invariant |
| DockUi.Dock.Init | Appsbar.js:538-553 | has the effect of Registry.Init and keeps the invariant |
| DockUi.Dock.CreateBar | Appsbar.js:212-253 | has the effect of Registry.CreateBar, keeps the invariant, and leaves the dock mounted |
| DockUi.Dock.CreateAll | Appsbar.js:543 | its loop adds the icon of every listed app and creates no panel |
| DockUi.Dock.Boot | Appsbar.js:538-543 | has the effect of Registry.Boot |
| DockUi.Dock.AddTimerFromUi | Appsbar.js:483-493 | saves Timers.AddTimer of the loaded list, and leaves storage alone when no time is given |
| DockUi.Dock.DeleteTimer | Appsbar.js:476 | saves the corrected delete, Timers.DeleteFromStore |
| DockUi.Dock.CheckTimers | Appsbar.js:495-513 | reports Timers.Firing of the loaded list, saves the ticked list unless it is empty, opens the clock panel if and only if something fired, and keeps the invariant |
| DockUi.Dock.TickOne | Appsbar.js:500-510 | one timer's step: the ticked timer, whether it fired, and the clock panel opened if it did |
| DockUi.Dock.TickEach | Appsbar.js:499-511 | its loop over the list gives Timers.Ticked and Timers.Firing and opens the clock panel if and only if something fired |
| DockUi.Dock.UpdateClock | Appsbar.js:426-438 | shows Clock.ClockText in the format the preference asks for, then runs checkTimers at that "HH:MM" minute: reports what fires, saves the ticked list unless it is empty, opens the clock panel if and only if something fired |
| Css.ParseButtonSelector | Appsbar.js:276 | how `[data-tool="${id}"]` reads the id; no contract of its own: BackslashIdIsMisread, QuoteIdThrows, LineBreakIdThrows and EscapedValueReadsBack state what it gives |
| Css.QueryButton | Appsbar.js:276 | querySelector with that selector among the dock buttons; no contract of its own: UnescapedLookupMisreads and EscapedQueryIsExact state what it gives |
| Css.BackslashIdIsMisread | Appsbar.js:276 | the unescaped selector for id `a\b` tests for the value `a` followed by U+000B |
| Css.QuoteIdThrows | Appsbar.js:276 | the unescaped selector for id `a"b` is a syntax error |
| Css.LineBreakIdThrows | Appsbar.js:276 | the unescaped selector for an id holding a line feed is a syntax error |
| Css.UnescapedLookupMisreads | Appsbar.js:276 | with the id unescaped, the lookup misses the existing button of `a\b`, and it throws for `a"b` and for an id holding a line feed |
| Css.ConsumeEscape | Appsbar.js:276 | the string token reads an escaped id back whole, whatever follows it |
| Css.EscapedValueReadsBack | Appsbar.js:276 | the string in the selector built from the escaped id holds exactly the id and closes just before the final `]` |
| Css.EscapedQueryIsExact | Appsbar.js:276 | with the id escaped, the selector tests for exactly that id, and the lookup finds a button exactly when the tool has one |

## Left out

- Styles, markup and SVG: injectStyles, defaultIconSVG, the icon HTML, and the panel's header
  buttons beyond "they call closeTool". The model keeps only what the handlers read and write.
- The focus `setTimeout` of openTool, flashBar and its timeout, browser notifications, and the
  battery meter. They are timers or platform calls that change none of the modelled state.
- localStorage and JSON. Storage is a value (`TimerStore`, `PrefsStore`) with three cases: missing,
  unparseable and parsed. JSON that parses to something other than a list of timers or a
  preferences object is not modelled.
- saveTimers and saveClockPrefs: they appear only as the assignment of the new store. The
  clock-format select element is left out.
- renderTimers. Re-rendering the list after add and delete is not modelled. The time string is
  shown without escaping there.
- The date line of updateClock (toLocaleDateString is locale-dependent). `Date` itself is out too:
  the hour and minute are parameters, and toTimeString().slice(0, 5) is modelled as "HH:MM".
- setInterval and the clock's initial updateClock call in createBar. Each tick is a separate call
  of UpdateClock.
- The contents of render callbacks, renderTranslate and renderClockPanel, and the mock
  translation. A render is modelled only by its outcome: no render, populates, returns an
  element, or throws.
- Main.js and NovaTranslate.js are not part of this model.
- Registry.Listing and DockUi.Dock.List: Object.values lists integer-like keys first, in numeric
  order. The model lists every id in the order it was first registered.
- Registry.Register: ids that collide with Object.prototype members are not modelled. For example,
  `apps["constructor"]` is truthy before any registration.
- Registry.Register: a descriptor object whose id is another falsy value, such as 0, is modelled
  as an empty id. Ids are strings in the model.
- Registry.PanelTool: getElementById can also find an element outside the panels whose id starts
  with `tool-`. The model searches the panels only.
- Registry.CreateToolPanel: the element ids of the bar itself, such as `nova-dock`, never clash
  with `tool-` ids, so the guard is modelled on panels only.
- DockUi.Dock.OnDockClick takes the tool id of the clicked button. `closest('.nova-icon')` and
  `dataset.tool` are reduced to that id, and a click on no button is an id that has no button.
- Registry.CreateDockIcon looks for an existing button by exact id, as the escaped selector does.
  The source puts the id into `[data-tool="${id}"]` unescaped (Appsbar.js:276). For an id holding
  `"`, `\` or a line break, that selector throws or names another value (see Findings). The model
  does not follow those ids into the exception or the missed button.
- DockUi.Dock.CreateDockIcon: the same exact-id lookup as Registry.CreateDockIcon.
- Registry.Close clears `active` on the button found by exact id. The source's lookup at
  Appsbar.js:365 is the same unescaped selector, so it throws or misses for those ids.
- DockUi.Dock.CloseTool: the same exact-id lookup as Registry.Close.
- Registry.RegisterFailsExactlyOnBadInput: on a mounted dock, register also throws for an id
  holding `"` or a line break. That happens after the descriptor is stored and before the panel
  exists (Appsbar.js:194-197). The model does not capture this, because it uses the escaped lookup.
- DockUi.Dock.Register: the same gap as Registry.RegisterFailsExactlyOnBadInput.
- Registry.RegisterTwiceCreatesOnce: icons are a set, so the model cannot show a second button for
  the same id. The source appends one for an id holding `\`, whose guard misses the first button.
  The icon half of this lemma therefore holds by representation, not because of the guard.
- Registry.CloseProperties: for an id holding `"` or a line break, the source's closeTool throws
  at Appsbar.js:365, after removing `open` and setting aria-hidden but before clearing `active`.
  For an id holding `\` it misses the button. The lemma states the escaped-lookup behaviour.
- Css.ParseButtonSelector: only the string token and the code point after it are read. A value
  followed by other selector text (a case modifier, a further attribute test or a combinator) is
  `Other`, and the model says nothing about it.
- Css.EscapedQueryIsExact: ids holding U+0000 are excluded, because preprocessing turns U+0000
  into U+FFFD. No selector, escaped or not, can name them.
- Whether a document click lands inside a panel or the bar is a parameter of
  DockUi.Dock.OnDocumentClick. The model does not derive it from the DOM. So it does not show that
  clicking a timer's Delete button closes the open clock panel. The Delete handler re-renders the
  list (`list.innerHTML = ''`, Appsbar.js:468 and 476), which detaches the clicked button before the
  click reaches document. `closest('.nova-tool, .nova-appsbar')` (Appsbar.js:547) then finds
  nothing, and the click counts as outside.
- The clock button's click and Enter handlers call toggleTool('tool-clock-panel'). They appear as
  the `TogglePanel` event and DockUi.Dock.ToggleTool.

## Findings

| source | as written | input that shows it | evidently intended | confidence | as-written member | corrected member |
|---|---|---|---|---|---|---|
| Appsbar.js:470-476 | the Delete button splices and saves the `timers` array loaded when the list was last rendered, so `_fired` flags that checkTimers saved since then are overwritten with the stale ones | timers Tea 09:00 and Call 10:00, rendered at 08:59; Tea fires at 09:00; Call is deleted during 09:00; the next tick at 09:00 fires Tea again | splice the list as stored now, so a timer that fired this minute stays fired | medium, not executed | Timers.StaleDeleteRefires | Timers.DeleteFromStoreKeepsFlags |
| Appsbar.js:276 | createDockIcon's guard, and closeTool's button lookup at Appsbar.js:365, put the id into the selector `[data-tool="${id}"]` without escaping it | id `a\b`: the selector tests for `a` followed by U+000B, so registering `a\b` twice on a mounted dock appends a second button; id `a"b`: querySelector throws, and register exits after storing the descriptor but before creating the panel | escape the id inside the CSS string so that the selector tests for exactly the id | medium, not executed | Css.UnescapedLookupMisreads | Css.EscapedQueryIsExact |
