/**
 * The dock as the page runs it: one object whose fields are the registry and
 * the dock's part of the DOM, changed in place by the handlers of Appsbar.js.
 * The handler methods are proved to have exactly the effect of a function of
 * module Registry, about which the properties are proved; the methods that
 * change storage are proved to save a function of module Timers of the stored
 * list; the loop helpers (CloseOthers, CreateAll, TickOne, TickEach) state
 * their effect field by field.
 */
module DockUi {
  import opened Wrappers
  import Html
  import Registry
  import Timers
  import Clock

  class Dock {
    var apps: map<string, Registry.Descriptor>
    var order: seq<string>
    var mounted: bool
    var icons: set<string>
    var panels: map<string, Registry.Panel>
    var open: set<string>
    var hidden: set<string>
    var active: set<string>
    /** localStorage under the timers key. */
    var timerStore: Timers.TimerStore

    function State(): Registry.DockState
      reads this`apps, this`order, this`mounted, this`icons, this`panels, this`open, this`hidden, this`active
    {
      Registry.DockState(apps, order, mounted, icons, panels, open, hidden, active)
    }

    ghost predicate Valid()
      reads this`apps, this`order, this`mounted, this`icons, this`panels, this`open, this`hidden, this`active
    {
      Registry.Valid(Registry.DockState(apps, order, mounted, icons, panels, open, hidden, active))
    }

    /** The page as the script starts: an empty registry, no dock yet, and whatever storage holds. */
    constructor (stored: Timers.TimerStore)
      ensures Valid() && State() == Registry.Unloaded && timerStore == stored
    {
      apps, order, mounted := map[], [], false;
      icons, panels := {}, map[];
      open, hidden, active := {}, {}, {};
      timerStore := stored;
      Registry.UnloadedIsValid();
    }

    // ---------- registry ----------

    /** AppRegistry.register: fails on a missing descriptor or id; otherwise stores it, reports
        whether it overrode an earlier one, and creates the icon and panel if they are missing. */
    method Register(def: Option<Registry.Descriptor>) returns (r: Result<bool, Registry.RegistryError>)
      requires Valid()
      modifies this`apps, this`order, this`icons, this`panels, this`hidden
      ensures Valid()
      ensures r.Failure? <==> Registry.Register(old(State()), def).Failure?
      ensures r.Failure? ==> State() == old(State())
      ensures r.Success? ==> def.Some? && r.value == Registry.Overrides(old(State()), def.value)
      ensures r.Success? ==> State() == Registry.Register(old(State()), def).value
    {
      if def.None? || def.value.id == "" {
        return Failure(Registry.InvalidDescriptor);
      }
      var d := def.value;
      ghost var s0 := State();
      r := Success(d.id in apps);
      if d.id !in apps {
        order := order + [d.id];
      }
      apps := apps[d.id := d];
      CreateDockIcon(d);
      CreateToolPanel(d);
      Registry.AdmitKeepsValid(s0, d);
    }

    /** AppRegistry.get. */
    method Get(id: string) returns (r: Option<Registry.Descriptor>)
      ensures r.Some? <==> id in apps
      ensures r.Some? ==> r.value == apps[id]
    {
      if id in apps {
        r := Some(apps[id]);
      } else {
        r := None;
      }
    }

    /** AppRegistry.list: Object.values(apps). */
    method List() returns (r: seq<Registry.Descriptor>)
      requires Valid()
      ensures r == Registry.Listing(State())
    {
      r := [];
      var i := 0;
      while i < |order|
        invariant 0 <= i <= |order|
        invariant r == Registry.Listing(State())[..i]
      {
        r := r + [apps[order[i]]];
        i := i + 1;
      }
    }

    /** createDockIcon. */
    method CreateDockIcon(d: Registry.Descriptor)
      modifies this`icons
      ensures State() == Registry.CreateDockIcon(old(State()), d)
    {
      if !mounted || d.id in icons {
        return;
      }
      icons := icons + {d.id};
    }

    /** createToolPanel, with the render call inside its error boundary. */
    method CreateToolPanel(d: Registry.Descriptor)
      modifies this`panels, this`hidden
      ensures State() == Registry.CreateToolPanel(old(State()), d)
    {
      var panelId := Registry.PanelId(d.id);
      Registry.PanelToolOfPanelId(panels, d.id);
      if Registry.PanelTool(panels, panelId).Some? {
        return;
      }
      var body := Registry.RenderInto(d.render);
      panels := panels[d.id := Registry.Panel(Html.EscapeHtml(d.title), body)];
      hidden := hidden + {d.id};
    }

    // ---------- panels ----------

    /** closeTool. */
    method CloseTool(panelId: string)
      modifies this`open, this`hidden, this`active
      ensures State() == Registry.Close(old(State()), panelId)
    {
      var found := Registry.PanelTool(panels, panelId);
      if found.None? {
        return;
      }
      ghost var s0 := State();
      var id := found.value;
      open := open - {id};
      hidden := hidden + {id};
      // the button is looked up by the panel id without its prefix, which is the panel's tool
      var toolId := Registry.ToolIdOf(panelId);
      Registry.ToolIdOfPanelId(id);
      active := active - {toolId};
      assert State() == Registry.Close(s0, panelId);
    }

    /** The first half of openTool: closeTool on the panel of every open tool other than `keep`. */
    method CloseOthers(keep: string)
      requires open <= panels.Keys
      modifies this`open, this`hidden, this`active
      ensures open == old(open) - (old(open) - {keep})
      ensures hidden == old(hidden) + (old(open) - {keep})
      ensures active == old(active) - (old(open) - {keep})
    {
      ghost var s0 := State();
      var others := open - {keep};
      while others != {}
        invariant others <= s0.open - {keep}
        invariant panels == s0.panels
        invariant open == s0.open - ((s0.open - {keep}) - others)
        invariant hidden == s0.hidden + ((s0.open - {keep}) - others)
        invariant active == s0.active - ((s0.open - {keep}) - others)
        decreases others
      {
        var q :| q in others;
        Registry.PanelToolOfPanelId(panels, q);
        CloseTool(Registry.PanelId(q));
        others := others - {q};
      }
    }

    /** openTool: closes every other open panel, one closeTool at a time, then opens this one.
        The open panels are elements of the page, which is all it needs of the state. */
    method OpenTool(panelId: string)
      requires open <= panels.Keys
      modifies this`open, this`hidden, this`active
      ensures State() == Registry.Open(old(State()), panelId)
    {
      var found := Registry.PanelTool(panels, panelId);
      if found.None? {
        return;
      }
      ghost var s0 := State();
      var id := found.value;
      CloseOthers(id);
      open := open + {id};
      hidden := hidden - {id};
      assert open == {id};
      assert State() == Registry.Open(s0, panelId);
    }

    /** toggleTool. */
    method ToggleTool(panelId: string)
      requires Valid()
      modifies this`open, this`hidden, this`active
      ensures Valid()
      ensures State() == Registry.Toggle(old(State()), panelId)
    {
      var found := Registry.PanelTool(panels, panelId);
      if found.None? {
        return;
      }
      ghost var s0 := State();
      if found.value in open {
        CloseTool(panelId);
      } else {
        OpenTool(panelId);
      }
      Registry.ToggleKeepsValid(s0, panelId);
    }

    /** window.NovaApps.openApp. */
    method OpenApp(id: string)
      requires Valid()
      modifies this`open, this`hidden, this`active
      ensures Valid()
      ensures State() == Registry.Open(old(State()), Registry.PanelId(id))
    {
      ghost var s0 := State();
      OpenTool(Registry.PanelId(id));
      Registry.OpenKeepsValid(s0, Registry.PanelId(id));
    }

    /** window.NovaApps.closeApp. */
    method CloseApp(id: string)
      requires Valid()
      modifies this`open, this`hidden, this`active
      ensures Valid()
      ensures State() == Registry.Close(old(State()), Registry.PanelId(id))
    {
      ghost var s0 := State();
      CloseTool(Registry.PanelId(id));
      Registry.CloseKeepsValid(s0, Registry.PanelId(id));
    }

    /** onDockClick, for a click on the button of tool `toolId`. */
    method OnDockClick(toolId: string)
      requires Valid()
      modifies this`open, this`hidden, this`active
      ensures Valid()
      ensures State() == Registry.DockClick(old(State()), toolId)
    {
      if toolId !in icons || toolId == "" {
        return;
      }
      ghost var s0 := State();
      ToggleTool(Registry.PanelId(toolId));
      // every icon loses `active`, then the clicked one gets it
      active := {toolId};
      Registry.DockClickKeepsValid(s0, toolId);
    }

    /** Closes every open panel, one closeTool at a time, as the outside-click and Escape
        handlers do. */
    method Dismiss()
      requires open <= panels.Keys
      modifies this`open, this`hidden, this`active
      ensures old(Valid()) ==> Valid()
      ensures State() == Registry.Dismiss(old(State()))
    {
      ghost var s0 := State();
      ghost var wasValid := Valid();
      var pending := open;
      while pending != {}
        invariant pending <= s0.open
        invariant apps == s0.apps && order == s0.order && mounted == s0.mounted
        invariant icons == s0.icons && panels == s0.panels
        invariant open == pending
        invariant hidden == s0.hidden + (s0.open - pending)
        invariant active == s0.active - (s0.open - pending)
        decreases pending
      {
        var p :| p in pending;
        Registry.PanelToolOfPanelId(panels, p);
        CloseTool(Registry.PanelId(p));
        pending := pending - {p};
      }
      assert s0.open - pending == s0.open;
      assert State() == Registry.Dismiss(s0);
      if wasValid {
        Registry.DismissKeepsValid(s0);
      }
    }

    /** The document click listener of init. */
    method OnDocumentClick(insidePanelOrBar: bool)
      requires Valid()
      modifies this`open, this`hidden, this`active
      ensures Valid()
      ensures State() == Registry.DocumentClick(old(State()), insidePanelOrBar)
    {
      if !insidePanelOrBar {
        Dismiss();
      }
    }

    /** The document keydown listener of init. */
    method OnKeyDown(key: string)
      requires Valid()
      modifies this`open, this`hidden, this`active
      ensures Valid()
      ensures State() == Registry.KeyDown(old(State()), key)
    {
      if key == "Escape" {
        Dismiss();
      }
    }

    /** init: createBar (which registers the two built-in apps, unless the bar exists), then
        createToolPanel and createDockIcon for every registered app in listing order. */
    method Init()
      requires Valid()
      modifies this`apps, this`order, this`mounted, this`icons, this`panels, this`hidden
      ensures Valid()
      ensures State() == Registry.Init(old(State()))
    {
      ghost var s0 := State();
      Boot(Registry.TranslateApp, Registry.ClockApp);
      Registry.InitKeepsValid(s0);
    }

    /** createBar: unless the dock exists, creates it and registers the two built-in apps. */
    method CreateBar(first: Registry.Descriptor, second: Registry.Descriptor)
      requires Valid() && first.id != "" && second.id != ""
      modifies this`apps, this`order, this`mounted, this`icons, this`panels, this`hidden
      ensures Valid() && mounted
      ensures State() == Registry.CreateBar(old(State()), first, second)
    {
      if mounted {
        return;
      }
      mounted := true;
      assert Valid();
      var r1 := Register(Some(first));
      var r2 := Register(Some(second));
    }

    /** Line 543 of init: createToolPanel and createDockIcon for every app, in listing order.
        Every listed app already has its panel, so only the missing icons appear. */
    method CreateAll()
      requires mounted
      requires forall k :: 0 <= k < |order| ==>
        order[k] in apps && apps[order[k]].id == order[k] && order[k] in panels
      modifies this`icons, this`panels, this`hidden
      ensures icons == old(icons) + (set k | 0 <= k < |order| :: order[k])
      ensures panels == old(panels) && hidden == old(hidden)
    {
      var i := 0;
      while i < |order|
        invariant 0 <= i <= |order|
        invariant panels == old(panels) && hidden == old(hidden)
        invariant icons == old(icons) + (set k | 0 <= k < i :: order[k])
      {
        var d := apps[order[i]];
        CreateToolPanel(d);
        CreateDockIcon(d);
        assert (set k | 0 <= k < i + 1 :: order[k]) == (set k | 0 <= k < i :: order[k]) + {order[i]};
        i := i + 1;
      }
    }

    /** init with the built-in descriptors as parameters. */
    method Boot(first: Registry.Descriptor, second: Registry.Descriptor)
      requires Valid() && first.id != "" && second.id != ""
      modifies this`apps, this`order, this`mounted, this`icons, this`panels, this`hidden
      ensures State() == Registry.Boot(old(State()), first, second)
    {
      ghost var s0 := State();
      CreateBar(first, second);
      ghost var s1 := State();
      Registry.ListedHavePanels(s1);
      CreateAll();
      assert icons == s1.icons + s1.apps.Keys;
      assert State() == s1.(icons := s1.icons + s1.apps.Keys);
    }

    // ---------- timers ----------

    /** addTimerFromUI, with the two input fields' values as parameters. */
    method AddTimerFromUi(labelInput: string, timeInput: string)
      modifies this`timerStore
      ensures timerStore == if timeInput == "" then old(timerStore)
                            else Timers.Saved(Timers.AddTimer(Timers.LoadTimers(old(timerStore)), labelInput, timeInput))
    {
      var labelText := Timers.LabelOf(labelInput);
      if timeInput == "" {
        return;
      }
      var ts := Timers.LoadTimers(timerStore);
      ts := ts + [Timers.Timer(labelText, timeInput, false, false)];
      timerStore := Timers.Saved(ts);
    }

    /** The Delete button of entry idx, splicing the list as stored (see Timers.DeleteFromStore). */
    method DeleteTimer(idx: nat)
      modifies this`timerStore
      ensures timerStore == Timers.DeleteFromStore(old(timerStore), idx)
    {
      var ts := Timers.LoadTimers(timerStore);
      if idx < |ts| {
        ts := ts[..idx] + ts[idx + 1..];
      }
      timerStore := Timers.Saved(ts);
    }

    /** checkTimers: a pass over the stored list that flags and reports each timer that fires,
        opening the clock panel for it, and saves the list; an empty list is left alone. */
    method CheckTimers(now: string) returns (fired: seq<Timers.Timer>)
      requires Valid()
      modifies this`open, this`hidden, this`active, this`timerStore
      ensures Valid()
      ensures fired == Timers.Firing(Timers.LoadTimers(old(timerStore)), now)
      ensures timerStore == (if Timers.LoadTimers(old(timerStore)) == [] then old(timerStore)
                             else Timers.Saved(Timers.Ticked(Timers.LoadTimers(old(timerStore)), now)))
      ensures State() == (if fired == [] then old(State()) else Registry.Open(old(State()), Registry.ClockPanelId))
    {
      var ts := Timers.LoadTimers(timerStore);
      fired := [];
      if ts == [] {
        return;
      }
      ghost var s0 := State();
      var out;
      out, fired := TickEach(ts, now, Registry.ClockPanelId);
      timerStore := Timers.Saved(out);
      Registry.OpenKeepsValid(s0, Registry.ClockPanelId);
    }

    /** One iteration of checkTimers' forEach: a timer that shows this minute and has not
        fired opens the panel and is marked fired; a fired timer of another minute is re-armed. */
    method TickOne(t: Timers.Timer, now: string, panelId: string) returns (r: Timers.Timer, fires: bool)
      requires open <= panels.Keys
      modifies this`open, this`hidden, this`active
      ensures r == Timers.TickTimer(t, now) && fires == Timers.Fires(t, now)
      ensures open <= panels.Keys
      ensures State() == (if fires then Registry.Open(old(State()), panelId) else old(State()))
    {
      r := t;
      fires := !t.fired && t.time == now;
      if fires {
        r := r.(fired := true);
        OpenTool(panelId);
      }
      if r.fired && r.time != now {
        r := r.(fired := false);
      }
    }

    /** The forEach of checkTimers over the loaded list `ts`, with the id of the panel a firing
        timer opens as a parameter: the list as it is saved, and the timers that fired. */
    method TickEach(ts: seq<Timers.Timer>, now: string, panelId: string) returns (out: seq<Timers.Timer>, fired: seq<Timers.Timer>)
      requires open <= panels.Keys
      modifies this`open, this`hidden, this`active
      ensures out == Timers.Ticked(ts, now)
      ensures fired == Timers.Firing(ts, now)
      ensures State() == (if fired == [] then old(State()) else Registry.Open(old(State()), panelId))
    {
      ghost var s0 := State();
      fired := [];
      out := ts;
      var i := 0;
      while i < |ts|
        invariant 0 <= i <= |ts| && |out| == |ts|
        invariant forall j :: 0 <= j < i ==> out[j] == Timers.TickTimer(ts[j], now)
        invariant forall j :: i <= j < |ts| ==> out[j] == ts[j]
        invariant fired == Timers.Firing(ts[..i], now)
        invariant open <= panels.Keys
        invariant State() == (if fired == [] then s0 else Registry.Open(s0, panelId))
      {
        var t, fires := TickOne(ts[i], now, panelId);
        if fires {
          Registry.OpenIdempotent(s0, panelId);
          fired := fired + [ts[i]];
        }
        out := out[i := t];
        assert ts[..i + 1][..i] == ts[..i];
        i := i + 1;
      }
      assert ts[..|ts|] == ts;
    }

    /** updateClock, for the wall-clock hour and minute: the text it shows, then checkTimers
        against the minute as "HH:MM". */
    method UpdateClock(hour: nat, minute: nat, prefs: Clock.PrefsStore) returns (text: string, fired: seq<Timers.Timer>)
      requires Valid() && hour < 24 && minute < 60
      modifies this`open, this`hidden, this`active, this`timerStore
      ensures Valid()
      ensures text == Clock.ClockText(hour, minute, Clock.Uses24Hour(prefs))
      ensures fired == Timers.Firing(Timers.LoadTimers(old(timerStore)), Clock.NowString(hour, minute))
      ensures timerStore == (if Timers.LoadTimers(old(timerStore)) == [] then old(timerStore)
                             else Timers.Saved(Timers.Ticked(Timers.LoadTimers(old(timerStore)), Clock.NowString(hour, minute))))
      ensures State() == (if fired == [] then old(State()) else Registry.Open(old(State()), Registry.ClockPanelId))
    {
      var use24 := Clock.Uses24Hour(prefs);
      text := Clock.ClockText(hour, minute, use24);
      fired := CheckTimers(Clock.NowString(hour, minute));
    }
  }
}
