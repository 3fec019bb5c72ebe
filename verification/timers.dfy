/**
 * The timer list of the clock panel (Appsbar.js:458-513): loading it from
 * storage, adding and deleting entries, and the once-a-second check that fires
 * a timer when the wall clock shows its "HH:MM".
 */
module Timers {

  /** One stored timer {label, time, recurring}; `fired` is the `_fired` flag that checkTimers
      saves with it. (`label` is a Dafny keyword, hence `labelText`.) */
  datatype Timer = Timer(labelText: string, time: string, recurring: bool, fired: bool)

  /** What storage holds under the timers key: nothing, text that does not parse, or a list. */
  datatype TimerStore = NoTimers | Unreadable | Saved(timers: seq<Timer>)

  /** loadTimers: the stored list, or the empty list when storage is missing or unparseable. */
  function LoadTimers(store: TimerStore): (r: seq<Timer>)
    ensures store.Saved? ==> r == store.timers
    ensures !store.Saved? ==> r == []
  {
    match store
    case Saved(ts) => ts
    case _ => []
  }

  // ---------- String.prototype.trim ----------

  /** The white space and line terminators that String.prototype.trim removes. */
  predicate IsJsSpace(c: char) {
    c == '\t' || c == '\n' || c == '\U{B}' || c == '\U{C}' || c == '\r' || c == ' '
    || c == '\U{A0}' || c == '\U{1680}' || ('\U{2000}' <= c <= '\U{200A}')
    || c == '\U{2028}' || c == '\U{2029}' || c == '\U{202F}' || c == '\U{205F}'
    || c == '\U{3000}' || c == '\U{FEFF}'
  }

  predicate AllSpace(s: string) {
    forall i :: 0 <= i < |s| ==> IsJsSpace(s[i])
  }

  function TrimStart(s: string): (r: string)
    ensures |r| <= |s| && r == s[|s| - |r|..] && AllSpace(s[..|s| - |r|])
    ensures r == [] || !IsJsSpace(r[0])
    decreases |s|
  {
    if s != [] && IsJsSpace(s[0]) then TrimStart(s[1..]) else s
  }

  function TrimEnd(s: string): (r: string)
    ensures |r| <= |s| && r == s[..|r|] && AllSpace(s[|r|..])
    ensures r == [] || !IsJsSpace(r[|r| - 1])
    decreases |s|
  {
    if s != [] && IsJsSpace(s[|s| - 1]) then TrimEnd(s[..|s| - 1]) else s
  }

  /** s.trim(): s with its leading and trailing white space removed. */
  function Trim(s: string): (r: string)
    ensures r == [] || (!IsJsSpace(r[0]) && !IsJsSpace(r[|r| - 1]))
  {
    TrimEnd(TrimStart(s))
  }

  /** Trimming leaves nothing exactly when the text is all white space. */
  lemma TrimIsEmptyIffBlank(s: string)
    ensures Trim(s) == [] <==> AllSpace(s)
  {
    var a := TrimStart(s);
    if Trim(s) == [] {
      assert forall i :: 0 <= i < |s| - |a| ==> s[i] == s[..|s| - |a|][i];
    }
  }

  /** The label of a new timer: the trimmed input, or 'Timer' when that is empty (Appsbar.js:484). */
  function LabelOf(input: string): (r: string)
    ensures r != []
    ensures AllSpace(input) ==> r == "Timer"
    ensures !AllSpace(input) ==> r == Trim(input)
  {
    TrimIsEmptyIffBlank(input);
    var t := Trim(input);
    if t == [] then "Timer" else t
  }

  // ---------- adding and deleting ----------

  /** addTimerFromUI on the loaded list: nothing without a time, else one new entry at the end. */
  function AddTimer(ts: seq<Timer>, labelInput: string, timeInput: string): seq<Timer>
  {
    if timeInput == "" then ts else ts + [Timer(LabelOf(labelInput), timeInput, false, false)]
  }

  lemma AddTimerAppends(ts: seq<Timer>, labelInput: string, timeInput: string)
    ensures timeInput == "" ==> AddTimer(ts, labelInput, timeInput) == ts
    ensures timeInput != "" ==>
      var r := AddTimer(ts, labelInput, timeInput);
      && |r| == |ts| + 1
      && r[..|ts|] == ts
      && r[|ts|].time == timeInput
      && r[|ts|].labelText == (if AllSpace(labelInput) then "Timer" else Trim(labelInput))
      && !r[|ts|].recurring && !r[|ts|].fired
  {
  }

  /** timers.splice(idx, 1): drops the entry at idx; an index past the end removes nothing. */
  function RemoveAt(ts: seq<Timer>, idx: nat): (r: seq<Timer>)
    ensures idx < |ts| ==> |r| == |ts| - 1
    ensures idx >= |ts| ==> r == ts
  {
    if idx < |ts| then ts[..idx] + ts[idx + 1..] else ts
  }

  /** Removing entry idx keeps every other entry, in the same order. */
  lemma RemoveAtKeepsOrder(ts: seq<Timer>, idx: nat)
    requires idx < |ts|
    ensures forall j :: 0 <= j < idx ==> RemoveAt(ts, idx)[j] == ts[j]
    ensures forall j :: idx <= j < |ts| - 1 ==> RemoveAt(ts, idx)[j] == ts[j + 1]
    ensures multiset(RemoveAt(ts, idx)) + multiset{ts[idx]} == multiset(ts)
  {
    assert ts == ts[..idx] + [ts[idx]] + ts[idx + 1..];
  }

  // ---------- checkTimers ----------

  /** A timer fires on a tick when it shows this minute and has not fired yet (Appsbar.js:500). */
  predicate Fires(t: Timer, now: string) {
    !t.fired && t.time == now
  }

  /** One timer's step in checkTimers: set the flag when it fires, clear it once the minute differs. */
  function TickTimer(t: Timer, now: string): (r: Timer)
    ensures r.fired == (t.time == now)
    ensures r.labelText == t.labelText && r.time == t.time && r.recurring == t.recurring
  {
    var armed := if !t.fired && t.time == now then t.(fired := true) else t;
    if armed.fired && armed.time != now then armed.(fired := false) else armed
  }

  /** The stored list after one tick. */
  function Ticked(ts: seq<Timer>, now: string): seq<Timer>
  {
    seq(|ts|, i requires 0 <= i < |ts| => TickTimer(ts[i], now))
  }

  /** The timers that fire on one tick, in list order. */
  function Firing(ts: seq<Timer>, now: string): (r: seq<Timer>)
    ensures |r| <= |ts|
    ensures forall i :: 0 <= i < |r| ==> Fires(r[i], now)
    decreases |ts|
  {
    if ts == [] then []
    else
      var last := ts[|ts| - 1];
      Firing(ts[..|ts| - 1], now) + (if Fires(last, now) then [last] else [])
  }

  /** The timers that fire are exactly the entries that show this minute and have not fired. */
  lemma {:induction false} FiringMembers(ts: seq<Timer>, now: string, t: Timer)
    ensures t in Firing(ts, now) <==> t in ts && Fires(t, now)
    decreases |ts|
  {
    if ts != [] {
      FiringMembers(ts[..|ts| - 1], now, t);
      assert ts == ts[..|ts| - 1] + [ts[|ts| - 1]];
    }
  }

  /** No timer fires exactly when no entry both matches the minute and is unfired. */
  lemma {:induction false} FiringIsEmpty(ts: seq<Timer>, now: string)
    ensures Firing(ts, now) == [] <==> forall i :: 0 <= i < |ts| ==> !Fires(ts[i], now)
    decreases |ts|
  {
    if ts != [] {
      FiringIsEmpty(ts[..|ts| - 1], now);
      assert forall i :: 0 <= i < |ts| - 1 ==> ts[..|ts| - 1][i] == ts[i];
    }
  }

  /** Every entry after a tick at `now` is settled for `now`: its flag says whether it matches. */
  predicate Settled(ts: seq<Timer>, now: string) {
    forall i :: 0 <= i < |ts| ==> ts[i].fired == (ts[i].time == now)
  }

  lemma TickedIsSettled(ts: seq<Timer>, now: string)
    ensures Settled(Ticked(ts, now), now)
  {
  }

  /** A settled list fires nothing at that minute and a further tick leaves it as it is. */
  lemma SettledIsQuiet(ts: seq<Timer>, now: string)
    requires Settled(ts, now)
    ensures Firing(ts, now) == []
    ensures Ticked(ts, now) == ts
  {
    FiringIsEmpty(ts, now);
  }

  /** All notifications over a run of ticks, one "HH:MM" string per second. */
  function FiredOver(ts: seq<Timer>, nows: seq<string>): seq<Timer>
    decreases |nows|
  {
    if nows == [] then [] else Firing(ts, nows[0]) + FiredOver(Ticked(ts, nows[0]), nows[1..])
  }

  lemma {:induction false} SettledStaysQuiet(ts: seq<Timer>, now: string, nows: seq<string>)
    requires Settled(ts, now)
    requires forall i :: 0 <= i < |nows| ==> nows[i] == now
    ensures FiredOver(ts, nows) == []
    decreases |nows|
  {
    if nows != [] {
      SettledIsQuiet(ts, now);
      SettledStaysQuiet(ts, now, nows[1..]);
    }
  }

  /** However many ticks fall in one minute, only the first fires anything: once per matching minute. */
  lemma SameMinuteFiresOnce(ts: seq<Timer>, now: string, nows: seq<string>)
    requires |nows| >= 1
    requires forall i :: 0 <= i < |nows| ==> nows[i] == now
    ensures FiredOver(ts, nows) == Firing(ts, now)
  {
    TickedIsSettled(ts, now);
    SettledStaysQuiet(Ticked(ts, now), now, nows[1..]);
  }

  /** After one tick at another minute every timer is re-armed: it fires again when its minute returns. */
  lemma OtherMinuteRearms(ts: seq<Timer>, now: string, other: string)
    requires other != now
    ensures forall i :: 0 <= i < |ts| && ts[i].time == now ==> Fires(Ticked(ts, other)[i], now)
  {
  }

  // ---------- deleting from the rendered list ----------

  /** The delete handler as written (Appsbar.js:470-476): it splices the list loaded when the
      list was last rendered, not the list in storage, and saves that. */
  function DeleteFromSnapshot(shown: seq<Timer>, idx: nat): TimerStore
  {
    Saved(RemoveAt(shown, idx))
  }

  /** The delete the handler evidently means: splice the list as stored now and save it. */
  function DeleteFromStore(store: TimerStore, idx: nat): (r: TimerStore)
    ensures r.Saved?
    ensures idx < |LoadTimers(store)| ==>
      multiset(r.timers) + multiset{LoadTimers(store)[idx]} == multiset(LoadTimers(store))
    ensures idx >= |LoadTimers(store)| ==> r.timers == LoadTimers(store)
  {
    var ts := LoadTimers(store);
    if idx < |ts| then RemoveAtKeepsOrder(ts, idx); Saved(RemoveAt(ts, idx))
    else Saved(ts)
  }

  /** Counterexample: a timer fires at 09:00, another is deleted during 09:00 from the list rendered
      at 08:59, and the next tick at 09:00 fires the first timer a second time. */
  lemma StaleDeleteRefires()
    ensures
      var tea := Timer("Tea", "09:00", false, false);
      var call := Timer("Call", "10:00", false, false);
      var shown := [tea, call];
      && Firing(shown, "09:00") == [tea]
      && Firing(LoadTimers(DeleteFromSnapshot(shown, 1)), "09:00") == [tea]
  {
    var tea := Timer("Tea", "09:00", false, false);
    var call := Timer("Call", "10:00", false, false);
    var shown := [tea, call];
    assert shown[..1] == [tea];
    assert RemoveAt(shown, 1) == [tea];
    assert [tea][..0] == [];
  }

  /** With the corrected delete, a timer that fired this minute stays fired: deleting another
      entry never makes it fire again in the same minute. */
  lemma DeleteFromStoreKeepsFlags(ts: seq<Timer>, now: string, idx: nat)
    ensures Firing(LoadTimers(DeleteFromStore(Saved(Ticked(ts, now)), idx)), now) == []
  {
    var settled := Ticked(ts, now);
    TickedIsSettled(ts, now);
    var rest := RemoveAt(settled, idx);
    if idx < |settled| {
      RemoveAtKeepsOrder(settled, idx);
    }
    assert Settled(rest, now);
    SettledIsQuiet(rest, now);
  }
}
