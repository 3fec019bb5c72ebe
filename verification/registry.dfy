/**
 * The app registry and the panel state machine of the dock (Appsbar.js:185-367,
 * 538-553), as functions on a value that holds what the page holds: the
 * registered descriptors and the dock's part of the DOM, reduced to sets and maps.
 */
module Registry {
  import opened Wrappers
  import Html

  /** What the user-supplied render callback does when the panel is created. */
  datatype RenderOutcome =
    | NoRender         // the descriptor has no render function
    | Populates        // it fills the container and returns something that is not an element
    | ReturnsElement   // it returns an element, which replaces the body's contents
    | Throws           // it throws

  /** The contents of a panel's body after creation. */
  datatype Body = Blank | Populated | HoldsElement | LoadError

  /** A registration record {id, title, iconHTML, render}; a missing title is the empty string. */
  datatype Descriptor = Descriptor(id: string, title: string, iconHtml: string, render: RenderOutcome)

  /** A panel element: the escaped title in its header and what its body holds. */
  datatype Panel = Panel(heading: string, body: Body)

  datatype RegistryError = InvalidDescriptor

  /**
   * apps and order: AppRegistry.apps and the order of its keys.
   * mounted: whether the dock element #nova-dock exists yet.
   * icons: the tool ids that have a dock button.
   * panels: the panel elements, each under the tool id `id` of its element id `tool-<id>`.
   * open: tools whose panel has class `open`; hidden: tools whose panel has aria-hidden="true";
   * active: tools whose dock button has class `active`.
   */
  datatype DockState = DockState(
    apps: map<string, Descriptor>,
    order: seq<string>,
    mounted: bool,
    icons: set<string>,
    panels: map<string, Panel>,
    open: set<string>,
    hidden: set<string>,
    active: set<string>)

  /** The page before init: nothing registered, no dock yet. */
  const Unloaded := DockState(map[], [], false, {}, map[], {}, {}, {})

  const ToolPrefix: string := "tool-"

  /** The panel id of a tool: `tool-${id}` (Appsbar.js:284). */
  function PanelId(id: string): string {
    ToolPrefix + id
  }

  /** panelId.replace(/^tool-/, ''): the tool id of a panel id (Appsbar.js:364). */
  function ToolIdOf(panelId: string): (id: string)
    ensures Html.StartsWith(panelId, ToolPrefix) ==> PanelId(id) == panelId
    ensures !Html.StartsWith(panelId, ToolPrefix) ==> id == panelId
  {
    if Html.StartsWith(panelId, ToolPrefix) then panelId[|ToolPrefix|..] else panelId
  }

  /** Stripping the prefix from a panel id gives back the tool id. */
  lemma ToolIdOfPanelId(id: string)
    ensures ToolIdOf(PanelId(id)) == id
  {
    assert Html.StartsWith(PanelId(id), ToolPrefix);
    assert PanelId(id)[|ToolPrefix|..] == id;
  }

  /** Distinct tools have distinct panels. */
  lemma PanelIdInjective(a: string, b: string)
    ensures PanelId(a) == PanelId(b) ==> a == b
  {
    ToolIdOfPanelId(a);
    ToolIdOfPanelId(b);
  }

  /** document.getElementById(panelId), as far as panels go: the tool whose panel has that id. */
  function PanelTool(panels: map<string, Panel>, panelId: string): (r: Option<string>)
    ensures r.Some? ==> r.value in panels && PanelId(r.value) == panelId
  {
    var id := ToolIdOf(panelId);
    if Html.StartsWith(panelId, ToolPrefix) && id in panels then Some(id) else None
  }

  /** The id `tool-<id>` finds the panel of tool `id` exactly when it exists; with the ensures of
      PanelTool, an id that finds nothing is the id of no panel. */
  lemma PanelToolOfPanelId(panels: map<string, Panel>, id: string)
    ensures PanelTool(panels, PanelId(id)) == if id in panels then Some(id) else None
  {
    ToolIdOfPanelId(id);
    assert Html.StartsWith(PanelId(id), ToolPrefix);
  }

  // ---------- invariants ----------

  /** The registry: order lists each registered id once, and each descriptor is stored under its id. */
  ghost predicate RegistryValid(apps: map<string, Descriptor>, order: seq<string>) {
    && (forall id :: id in apps <==> id in order)
    && (forall i, j :: 0 <= i < j < |order| ==> order[i] != order[j])
    && (forall id :: id in apps ==> apps[id].id == id)
  }

  /** The DOM: one panel per registered id and no other panel; icons only for registered ids and only
      once the dock exists; at most one panel open; aria-hidden exactly on the closed panels. */
  ghost predicate DomValid(s: DockState) {
    && s.panels.Keys == s.apps.Keys
    && s.icons <= s.apps.Keys
    && (!s.mounted ==> s.icons == {})
    && s.open <= s.panels.Keys
    && AtMostOne(s.open)
    && s.hidden == s.panels.Keys - s.open
    && s.active <= s.icons
  }

  /** No two different members: the set is empty or a singleton. */
  ghost predicate AtMostOne(xs: set<string>) {
    forall a, b :: a in xs && b in xs ==> a == b
  }

  lemma AtMostOneCard(xs: set<string>)
    requires AtMostOne(xs)
    ensures |xs| <= 1
  {
    if xs != {} {
      var x :| x in xs;
      assert xs == {x};
    }
  }

  ghost predicate Valid(s: DockState) {
    RegistryValid(s.apps, s.order) && DomValid(s)
  }

  lemma UnloadedIsValid()
    ensures Valid(Unloaded)
  {
  }

  // ---------- registry ----------

  /** AppRegistry.get: the descriptor, or nothing; never fails. */
  function Lookup(s: DockState, id: string): Option<Descriptor> {
    if id in s.apps then Some(s.apps[id]) else None
  }

  /** AppRegistry.list: Object.values(apps), in the order the ids were first registered. */
  function Listing(s: DockState): seq<Descriptor>
    requires RegistryValid(s.apps, s.order)
  {
    seq(|s.order|, i requires 0 <= i < |s.order| => s.apps[s.order[i]])
  }

  /** The listing holds every registered descriptor exactly once. */
  lemma ListingIsComplete(s: DockState)
    requires RegistryValid(s.apps, s.order)
    ensures |Listing(s)| == |s.apps|
    ensures forall id :: id in s.apps ==> s.apps[id] in Listing(s)
    ensures forall d :: d in Listing(s) ==> d.id in s.apps && s.apps[d.id] == d
  {
    var ids := set id | id in s.order;
    assert ids == s.apps.Keys;
    DistinctCard(s.order);
    forall id | id in s.apps ensures s.apps[id] in Listing(s) {
      var i :| 0 <= i < |s.order| && s.order[i] == id;
      assert Listing(s)[i] == s.apps[id];
    }
  }

  /** A list with no repetition has as many distinct elements as entries. */
  lemma {:induction false} DistinctCard(xs: seq<string>)
    requires forall i, j :: 0 <= i < j < |xs| ==> xs[i] != xs[j]
    ensures |set x | x in xs| == |xs|
    decreases |xs|
  {
    if xs != [] {
      var init := xs[..|xs| - 1];
      DistinctCard(init);
      assert (set x | x in xs) == (set x | x in init) + {xs[|xs| - 1]};
      assert xs[|xs| - 1] !in (set x | x in init);
    }
  }

  /** createDockIcon: a button for the tool, unless the dock is missing or already has one. The
      lookup of an existing button is the exact match that the escaped selector performs
      (Css.EscapedQueryIsExact); the unescaped selector at Appsbar.js:276 differs from it for ids
      holding a quote, a backslash or a line break (Css.UnescapedLookupMisreads). */
  function CreateDockIcon(s: DockState, d: Descriptor): DockState {
    if !s.mounted || d.id in s.icons then s else s.(icons := s.icons + {d.id})
  }

  /** The body after the render call and its error boundary (Appsbar.js:309-319). */
  function RenderInto(r: RenderOutcome): (b: Body)
    ensures b == LoadError <==> r == Throws
  {
    match r
    case NoRender => Blank
    case Populates => Populated
    case ReturnsElement => HoldsElement
    case Throws => LoadError
  }

  /** createToolPanel: a closed, aria-hidden panel `tool-<id>` rendered once, unless an element
      with that id exists (PanelToolOfPanelId: that is, unless the tool has its panel). */
  function CreateToolPanel(s: DockState, d: Descriptor): DockState {
    if d.id in s.panels then s
    else s.(panels := s.panels[d.id := Panel(Html.EscapeHtml(d.title), RenderInto(d.render))],
            hidden := s.hidden + {d.id})
  }

  /** Storing the descriptor: a new id goes to the end of the order, a known id keeps its place. */
  function Store(s: DockState, d: Descriptor): DockState {
    s.(apps := s.apps[d.id := d], order := if d.id in s.apps then s.order else s.order + [d.id])
  }

  /** The effect of a registration that passed the guard. */
  function Admit(s: DockState, d: Descriptor): DockState {
    CreateToolPanel(CreateDockIcon(Store(s, d), d), d)
  }

  /** AppRegistry.register: throws without a descriptor or without an id (Appsbar.js:191-198). */
  function Register(s: DockState, def: Option<Descriptor>): Result<DockState, RegistryError> {
    if def.None? || def.value.id == "" then Failure(InvalidDescriptor) else Success(Admit(s, def.value))
  }

  /** Registering an existing id logs a warning (Appsbar.js:193). */
  predicate Overrides(s: DockState, d: Descriptor) {
    d.id in s.apps
  }

  /** The guard: no descriptor or an empty id fails, anything else succeeds. */
  lemma RegisterFailsExactlyOnBadInput(s: DockState, def: Option<Descriptor>)
    ensures Register(s, def).Failure? <==> def.None? || def.value.id == ""
  {
  }

  /** After a registration, get(id) returns the new descriptor, overwriting any earlier one,
      and every other id keeps its descriptor. */
  lemma RegisterThenLookup(s: DockState, d: Descriptor, other: string)
    requires d.id != ""
    ensures Register(s, Some(d)).Success?
    ensures Lookup(Register(s, Some(d)).value, d.id) == Some(d)
    ensures other != d.id ==> Lookup(Register(s, Some(d)).value, other) == Lookup(s, other)
  {
  }

  /** A throwing render is caught: registration still succeeds and the panel shows the error. */
  lemma RenderErrorIsContained(s: DockState, d: Descriptor)
    requires d.id != "" && d.render == Throws
    requires d.id !in s.panels
    ensures Register(s, Some(d)).Success?
    ensures Register(s, Some(d)).value.panels[d.id].body == LoadError
  {
  }

  /** Registering a second time under the same id creates no second icon or panel: the icons and
      panels are those after the first registration, with the first title and body. */
  lemma RegisterTwiceCreatesOnce(s: DockState, d1: Descriptor, d2: Descriptor)
    requires d1.id != "" && d1.id == d2.id
    ensures var once := Admit(s, d1);
            var twice := Admit(once, d2);
            && twice.icons == once.icons
            && twice.panels == once.panels
            && twice.order == once.order
            && twice.apps == once.apps[d1.id := d2]
  {
  }

  lemma StoreKeepsRegistryValid(s: DockState, d: Descriptor)
    requires RegistryValid(s.apps, s.order)
    ensures RegistryValid(Store(s, d).apps, Store(s, d).order)
    ensures Store(s, d).apps.Keys == s.apps.Keys + {d.id}
  {
    var t := Store(s, d);
    forall i, j | 0 <= i < j < |t.order| ensures t.order[i] != t.order[j] {
      if d.id !in s.apps && j == |s.order| {
        assert t.order[i] == s.order[i];
      }
    }
  }

  /** What a registration that passed the guard changes, field by field. */
  lemma AdmitFields(s: DockState, d: Descriptor)
    ensures var t := Admit(s, d);
      var p := d.id;
      && t.apps == s.apps[d.id := d]
      && t.order == (if d.id in s.apps then s.order else s.order + [d.id])
      && t.mounted == s.mounted
      && t.icons == (if s.mounted then s.icons + {d.id} else s.icons)
      && t.panels.Keys == s.panels.Keys + {p}
      && (p !in s.panels ==> t.panels[p] == Panel(Html.EscapeHtml(d.title), RenderInto(d.render)))
      && (forall q :: q in s.panels ==> t.panels[q] == s.panels[q])
      && t.open == s.open
      && t.hidden == (if p in s.panels then s.hidden else s.hidden + {p})
      && t.active == s.active
  {
  }

  lemma AdmitKeepsValid(s: DockState, d: Descriptor)
    requires Valid(s)
    ensures Valid(Admit(s, d)) && Admit(s, d).mounted == s.mounted
  {
    StoreKeepsRegistryValid(s, d);
    AdmitKeepsDomValid(s, d);
    var t := Admit(s, d);
    assert t.apps == Store(s, d).apps && t.order == Store(s, d).order;
  }

  lemma AdmitKeepsDomValid(s: DockState, d: Descriptor)
    requires DomValid(s)
    ensures DomValid(Admit(s, d))
  {
  }

  // ---------- panel state machine ----------

  /** closeTool (Appsbar.js:358-367): an id that finds no panel changes nothing; otherwise the
      panel loses `open`, becomes aria-hidden, and the button of the tool the id names (the id
      without its `tool-` prefix) loses `active`. The button is found as by the escaped selector,
      as in CreateDockIcon. */
  function Close(s: DockState, panelId: string): DockState {
    match PanelTool(s.panels, panelId)
    case None => s
    case Some(id) => s.(open := s.open - {id}, hidden := s.hidden + {id}, active := s.active - {id})
  }

  /** openTool (Appsbar.js:344-356): an id that finds no panel changes nothing; otherwise every
      other open panel is closed as closeTool does, and the panel gets `open` and
      aria-hidden="false". */
  function Open(s: DockState, panelId: string): DockState {
    match PanelTool(s.panels, panelId)
    case None => s
    case Some(id) =>
      var others := s.open - {id};
      s.(open := {id}, hidden := (s.hidden + others) - {id}, active := s.active - others)
  }

  /** toggleTool (Appsbar.js:337-342). */
  function Toggle(s: DockState, panelId: string): DockState {
    match PanelTool(s.panels, panelId)
    case None => s
    case Some(id) => if id in s.open then Close(s, panelId) else Open(s, panelId)
  }

  /** onDockClick (Appsbar.js:323-334): a click on the button of tool `id` toggles its panel, then
      removes `active` from every icon and puts it on that button. A click outside any button is an
      id with no button. */
  function DockClick(s: DockState, id: string): DockState {
    if id !in s.icons || id == "" then s
    else Toggle(s, PanelId(id)).(active := {id})
  }

  /** Closing every open panel, as the outside-click and Escape handlers do (Appsbar.js:548, 552). */
  function Dismiss(s: DockState): DockState {
    s.(open := {}, hidden := s.hidden + s.open, active := s.active - s.open)
  }

  /** The document click handler: a click inside no panel and not on the bar dismisses. */
  function DocumentClick(s: DockState, insidePanelOrBar: bool): DockState {
    if insidePanelOrBar then s else Dismiss(s)
  }

  /** The document keydown handler. */
  function KeyDown(s: DockState, key: string): DockState {
    if key == "Escape" then Dismiss(s) else s
  }

  const TranslateApp := Descriptor("nova-translate", "Nova Translate", "default", Populates)
  const ClockApp := Descriptor("clock-panel", "Clock & Timers", "default", Populates)
  const ClockPanelId := "tool-clock-panel"

  /** init (Appsbar.js:538-553): createBar mounts the dock and registers the two built-in tools
      unless the bar exists; then every registered tool gets its panel and icon. Under Valid every
      registered tool has its panel already, so only icons are added. */
  function Init(s: DockState): DockState {
    Boot(s, TranslateApp, ClockApp)
  }

  /** init with the two built-in descriptors as parameters: createBar, then an icon for every
      registered app (each already has its panel). */
  function Boot(s: DockState, first: Descriptor, second: Descriptor): DockState {
    var s1 := CreateBar(s, first, second);
    s1.(icons := s1.icons + s1.apps.Keys)
  }

  /** createBar (Appsbar.js:213-262): unless the dock exists, create it and register the two
      built-in apps. */
  function CreateBar(s: DockState, first: Descriptor, second: Descriptor): DockState {
    if s.mounted then s else Admit(Admit(s.(mounted := true), first), second)
  }

  /** The panel handlers change only the DOM, so the registry half of the invariant carries over. */
  lemma DomStepKeepsValid(s: DockState, t: DockState)
    requires Valid(s) && DomValid(t) && t.apps == s.apps && t.order == s.order
    ensures Valid(t)
  {
  }

  lemma CloseKeepsDomValid(s: DockState, p: string)
    requires DomValid(s)
    ensures DomValid(Close(s, p))
  {
  }

  lemma CloseKeepsValid(s: DockState, p: string)
    requires Valid(s)
    ensures Valid(Close(s, p))
  {
    CloseKeepsDomValid(s, p);
    DomStepKeepsValid(s, Close(s, p));
  }

  lemma OpenKeepsDomValid(s: DockState, p: string)
    requires DomValid(s)
    ensures DomValid(Open(s, p))
  {
  }

  lemma OpenKeepsValid(s: DockState, p: string)
    requires Valid(s)
    ensures Valid(Open(s, p))
  {
    OpenKeepsDomValid(s, p);
    DomStepKeepsValid(s, Open(s, p));
  }

  lemma ToggleKeepsValid(s: DockState, p: string)
    requires Valid(s)
    ensures Valid(Toggle(s, p))
  {
    CloseKeepsValid(s, p);
    OpenKeepsValid(s, p);
  }

  lemma DockClickKeepsDomValid(s: DockState, id: string)
    requires DomValid(s)
    ensures DomValid(DockClick(s, id))
  {
    CloseKeepsDomValid(s, PanelId(id));
    OpenKeepsDomValid(s, PanelId(id));
  }

  lemma DockClickKeepsValid(s: DockState, id: string)
    requires Valid(s)
    ensures Valid(DockClick(s, id))
  {
    DockClickKeepsDomValid(s, id);
    DomStepKeepsValid(s, DockClick(s, id));
  }

  lemma DismissKeepsDomValid(s: DockState)
    requires DomValid(s)
    ensures DomValid(Dismiss(s))
  {
  }

  lemma DismissKeepsValid(s: DockState)
    requires Valid(s)
    ensures Valid(Dismiss(s))
  {
    DismissKeepsDomValid(s);
    DomStepKeepsValid(s, Dismiss(s));
  }

  /** In a valid state the order lists exactly the registered ids, each stored under itself and
      each with its panel. */
  lemma ListedHavePanels(s: DockState)
    requires Valid(s)
    ensures forall k :: 0 <= k < |s.order| ==>
      s.order[k] in s.apps && s.apps[s.order[k]].id == s.order[k] && s.order[k] in s.panels
    ensures (set k | 0 <= k < |s.order| :: s.order[k]) == s.apps.Keys
  {
    forall id | id in s.apps
      ensures id in (set k | 0 <= k < |s.order| :: s.order[k])
    {
      var k :| 0 <= k < |s.order| && s.order[k] == id;
    }
  }

  /** Adding icons for registered tools, on a mounted dock, keeps the invariant. */
  lemma AddIconsKeepsValid(s: DockState)
    requires Valid(s) && s.mounted
    ensures Valid(s.(icons := s.icons + s.apps.Keys))
  {
    DomStepKeepsValid(s, s.(icons := s.icons + s.apps.Keys));
  }

  lemma CreateBarKeepsValid(s: DockState, first: Descriptor, second: Descriptor)
    requires Valid(s)
    ensures Valid(CreateBar(s, first, second)) && CreateBar(s, first, second).mounted
  {
    if !s.mounted {
      var m := s.(mounted := true);
      assert Valid(m);
      AdmitKeepsValid(m, first);
      AdmitKeepsValid(Admit(m, first), second);
    }
  }

  lemma BootKeepsValid(s: DockState, first: Descriptor, second: Descriptor)
    requires Valid(s)
    ensures Valid(Boot(s, first, second))
    ensures Boot(s, first, second).mounted
    ensures Boot(s, first, second).icons == Boot(s, first, second).apps.Keys
  {
    var s1 := CreateBar(s, first, second);
    CreateBarKeepsValid(s, first, second);
    AddIconsKeepsValid(s1);
  }

  lemma InitKeepsValid(s: DockState)
    requires Valid(s)
    ensures Valid(Init(s))
    ensures Init(s).mounted && Init(s).icons == Init(s).apps.Keys
  {
    BootKeepsValid(s, TranslateApp, ClockApp);
  }

  /** After openTool on an existing panel it is the only open panel; every other panel is closed
      and aria-hidden. */
  lemma OpenClosesOthers(s: DockState, id: string, q: string)
    requires Valid(s) && id in s.panels
    ensures Open(s, PanelId(id)).open == {id} && id !in Open(s, PanelId(id)).hidden
    ensures q in s.panels && q != id ==> q !in Open(s, PanelId(id)).open && q in Open(s, PanelId(id)).hidden
  {
    PanelToolOfPanelId(s.panels, id);
  }

  /** open(a) then open(b): a is closed and b is open. */
  lemma OpenThenOpen(s: DockState, a: string, b: string)
    requires Valid(s) && a in s.panels && b in s.panels && a != b
    ensures a !in Open(Open(s, PanelId(a)), PanelId(b)).open
    ensures b in Open(Open(s, PanelId(a)), PanelId(b)).open
  {
    PanelToolOfPanelId(s.panels, a);
    PanelToolOfPanelId(s.panels, b);
  }

  /** Opening twice is opening once (a timer firing twice in one tick opens the clock panel once). */
  lemma OpenIdempotent(s: DockState, panelId: string)
    ensures Open(Open(s, panelId), panelId) == Open(s, panelId)
  {
    match PanelTool(s.panels, panelId)
    case None =>
    case Some(id) =>
      var t := Open(s, panelId);
      assert t.panels == s.panels;
      assert t.open - {id} == {};
  }

  /** closeTool leaves the panel closed and aria-hidden with its icon not active, changes no other
      panel, and applying it twice is applying it once. */
  lemma CloseProperties(s: DockState, id: string, q: string)
    requires id in s.panels
    ensures var t := Close(s, PanelId(id));
      id !in t.open && id in t.hidden && id !in t.active
    ensures q != id ==>
      (q in Close(s, PanelId(id)).open <==> q in s.open) && (q in Close(s, PanelId(id)).hidden <==> q in s.hidden)
    ensures Close(Close(s, PanelId(id)), PanelId(id)) == Close(s, PanelId(id))
  {
    PanelToolOfPanelId(s.panels, id);
  }

  /** toggleTool flips the open state of an existing panel. */
  lemma ToggleFlips(s: DockState, id: string)
    requires id in s.panels
    ensures id in Toggle(s, PanelId(id)).open <==> id !in s.open
  {
    PanelToolOfPanelId(s.panels, id);
  }

  /** openTool, closeTool and toggleTool on an id that is the id of no panel change nothing. */
  lemma UnknownPanelIsIgnored(s: DockState, panelId: string)
    requires forall id :: id in s.panels ==> PanelId(id) != panelId
    ensures Open(s, panelId) == s && Close(s, panelId) == s && Toggle(s, panelId) == s
  {
  }

  /** Outside click and Escape leave no panel open and every panel aria-hidden. */
  lemma DismissClosesAll(s: DockState)
    requires Valid(s)
    ensures Dismiss(s).open == {} && Dismiss(s).hidden == s.panels.Keys
  {
  }

  /** A click outside every panel and the bar closes every panel, and so does Escape; a click
      inside or any other key changes nothing. */
  lemma OnlyOutsideClickOrEscapeDismisses(s: DockState, inside: bool, key: string)
    requires Valid(s)
    ensures !inside ==> DocumentClick(s, inside).open == {} && DocumentClick(s, inside).hidden == s.panels.Keys
    ensures !inside ==> DocumentClick(s, inside).active == s.active - s.open
    ensures inside ==> DocumentClick(s, inside) == s
    ensures key == "Escape" ==> KeyDown(s, key).open == {} && KeyDown(s, key).hidden == s.panels.Keys
    ensures key == "Escape" ==> KeyDown(s, key).active == s.active - s.open
    ensures key != "Escape" ==> KeyDown(s, key) == s
  {
    DismissClosesAll(s);
  }

  /** After a dock click exactly the clicked button is active. */
  lemma DockClickMovesActive(s: DockState, id: string)
    requires id in s.icons && id != ""
    ensures DockClick(s, id).active == {id}
  {
  }

  /** As the code is written, clicking the button of the open panel closes the panel but leaves
      the button marked active, so "active" is not the same as "its panel is open". */
  lemma DockClickOnOpenPanelKeepsActive(s: DockState, id: string)
    requires Valid(s) && id in s.icons && id != "" && id in s.open
    ensures id !in DockClick(s, id).open
    ensures id in DockClick(s, id).active
  {
    PanelToolOfPanelId(s.panels, id);
  }

  // ---------- any sequence of events ----------

  /** What the user or the page can do once the script has loaded. */
  datatype Event =
    | RegisterApp(def: Option<Descriptor>)   // window.NovaApps.registerApp
    | Start                                  // init
    | Ui(u: UiEvent)                         // a handler that only changes the DOM

  datatype UiEvent =
    | OpenPanel(panelId: string)             // openTool: NovaApps.openApp, a firing timer
    | ClosePanel(panelId: string)            // closeTool: NovaApps.closeApp, a panel's buttons
    | TogglePanel(panelId: string)           // toggleTool: the clock button
    | ClickIcon(toolId: string)              // a click in the dock
    | ClickDocument(insidePanelOrBar: bool)  // a click anywhere
    | PressKey(key: string)                  // a key press anywhere

  function UiStep(s: DockState, u: UiEvent): DockState {
    match u
    case OpenPanel(p) => Open(s, p)
    case ClosePanel(p) => Close(s, p)
    case TogglePanel(p) => Toggle(s, p)
    case ClickIcon(id) => DockClick(s, id)
    case ClickDocument(inside) => DocumentClick(s, inside)
    case PressKey(k) => KeyDown(s, k)
  }

  /** Any event may come at any time: the model also lets handler events come before init, when
      the page has not installed their listeners yet. */
  function Step(s: DockState, e: Event): DockState {
    match e
    case RegisterApp(def) => (match Register(s, def) case Success(t) => t case Failure(_) => s)
    case Start => Init(s)
    case Ui(u) => UiStep(s, u)
  }

  function Run(s: DockState, es: seq<Event>): DockState
    decreases |es|
  {
    if es == [] then s else Run(Step(s, es[0]), es[1..])
  }

  lemma UiStepKeepsDomValid(s: DockState, u: UiEvent)
    requires DomValid(s)
    ensures DomValid(UiStep(s, u))
    ensures UiStep(s, u).apps == s.apps && UiStep(s, u).order == s.order
  {
    match u
    case OpenPanel(p) => OpenKeepsDomValid(s, p);
    case ClosePanel(p) => CloseKeepsDomValid(s, p);
    case TogglePanel(p) => CloseKeepsDomValid(s, p); OpenKeepsDomValid(s, p);
    case ClickIcon(id) => DockClickKeepsDomValid(s, id);
    case ClickDocument(inside) => DismissKeepsDomValid(s);
    case PressKey(k) => DismissKeepsDomValid(s);
  }

  lemma StepKeepsValid(s: DockState, e: Event)
    requires Valid(s)
    ensures Valid(Step(s, e))
  {
    // discriminators rather than a match: a match would name the constant `Start`, and the
    // verifier then unfolds init on it far more eagerly
    if e.RegisterApp? {
      if e.def.Some? && e.def.value.id != "" { AdmitKeepsValid(s, e.def.value); }
    } else if e.Start? {
      InitKeepsValid(s);
    } else {
      UiStepKeepsDomValid(s, e.u);
      DomStepKeepsValid(s, UiStep(s, e.u));
    }
  }

  /** Whatever happens, from the page as loaded: at most one panel is open, and every registered
      tool has exactly its one panel. */
  lemma {:induction false} AtMostOneOpen(s: DockState, es: seq<Event>)
    requires Valid(s)
    ensures Valid(Run(s, es))
    ensures |Run(s, es).open| <= 1
    decreases |es|
  {
    if es == [] {
      AtMostOneCard(s.open);
    } else {
      StepKeepsValid(s, es[0]);
      AtMostOneOpen(Step(s, es[0]), es[1..]);
    }
  }
}
