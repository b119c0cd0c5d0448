/**
 * The gesture handler: it takes gesture events off the recognizer's queue, drops the ones made
 * before the end of the last action's cooldown, looks up the action of the (hand, gesture) pair,
 * presses its keys one by one or as a chord, reports the action and starts a new cooldown.
 */
module GestureHandler {
  import opened Wrappers
  import opened Json
  import ConfigFile
  import opened KeyDispatch
  import opened Pipeline

  /** The dict the recognizer puts on the gesture queue. */
  datatype GestureEvent = GestureEvent(hand: string, name: string, timestamp: int)

  /** `config["Actions"]`: hand, then gesture, to the key identifiers of the action. */
  type ActionTable = map<string, map<string, seq<string>>>

  /** `config["Settings"]`, the two timings in seconds. */
  datatype HandlerSettings = HandlerSettings(combinationMode: bool, pressReleaseWaitTime: real, actionCooldown: real)

  datatype HandlerConfig = HandlerConfig(actions: ActionTable, settings: HandlerSettings)

  // ---------------------------------------------------------------------------------------------
  // action_is_combination
  // ---------------------------------------------------------------------------------------------

  const Modifiers: seq<string> := ["ctrl", "alt", "shift", "cmd"]

  /** `p` occurs in `s` at position `i`. */
  ghost predicate OccursAt(p: string, s: string, i: int) {
    0 <= i <= |s| - |p| && s[i..i + |p|] == p
  }

  /** Python's `p in s` on strings. */
  ghost predicate IsSubstring(p: string, s: string) {
    exists i :: OccursAt(p, s, i)
  }

  function Contains(s: string, p: string): (r: bool)
    ensures r <==> IsSubstring(p, s)
    decreases |s|
  {
    if |p| > |s| then false
    else if s[..|p|] == p then
      assert OccursAt(p, s, 0);
      true
    else
      var r := Contains(s[1..], p);
      assert r ==> IsSubstring(p, s) by {
        if r {
          var i :| OccursAt(p, s[1..], i);
          assert s[i + 1..i + 1 + |p|] == s[1..][i..i + |p|];
          assert OccursAt(p, s, i + 1);
        }
      }
      assert IsSubstring(p, s) ==> r by {
        if IsSubstring(p, s) {
          var i :| OccursAt(p, s, i);
          assert i != 0;
          assert s[1..][i - 1..i - 1 + |p|] == s[i..i + |p|];
          assert OccursAt(p, s[1..], i - 1);
        }
      }
      r
  }

  /** The loop over the modifier list, with its early return. */
  function AnyModifierIn(mods: seq<string>, first: string): (r: bool)
    ensures r <==> exists j :: 0 <= j < |mods| && IsSubstring(mods[j], first)
  {
    if mods == [] then false
    else if Contains(first, mods[0]) then true
    else
      var r := AnyModifierIn(mods[1..], first);
      assert r ==> exists j :: 0 <= j < |mods| && IsSubstring(mods[j], first) by {
        if r {
          var j :| 0 <= j < |mods[1..]| && IsSubstring(mods[1..][j], first);
          assert mods[j + 1] == mods[1..][j];
        }
      }
      assert (exists j :: 0 <= j < |mods| && IsSubstring(mods[j], first)) ==> r by {
        if exists j :: 0 <= j < |mods| && IsSubstring(mods[j], first) {
          var j :| 0 <= j < |mods| && IsSubstring(mods[j], first);
          assert j != 0;
          assert mods[1..][j - 1] == mods[j];
        }
      }
      r
  }

  /** action_is_combination: true exactly when the first key identifier contains one of the
      modifier names as a substring. */
  function ActionIsCombination(action: seq<string>): (r: bool)
    requires |action| > 0
    ensures r <==> exists j :: 0 <= j < |Modifiers| && IsSubstring(Modifiers[j], action[0])
  {
    AnyModifierIn(Modifiers, action[0])
  }

  /** "ctrl_l" and "shift_r" count as modifiers; a letter does not. */
  lemma CombinationExamples()
    ensures ActionIsCombination(["ctrl_l", "c"])
    ensures ActionIsCombination(["shift_r"])
    ensures !ActionIsCombination(["a", "ctrl"])
  {
    assert OccursAt("ctrl", "ctrl_l", 0) by { assert "ctrl_l"[0..4] == "ctrl"; }
    assert OccursAt("shift", "shift_r", 0) by { assert "shift_r"[0..5] == "shift"; }
  }

  // ---------------------------------------------------------------------------------------------
  // One iteration of run()
  // ---------------------------------------------------------------------------------------------

  /** Python's `int(x)` on a float: truncation toward zero. */
  function Truncate(x: real): (r: int)
    ensures x >= 0.0 ==> r as real <= x < r as real + 1.0
    ensures x < 0.0 ==> r as real - 1.0 < x <= r as real
  {
    if x >= 0.0 then x.Floor else -((-x).Floor)
  }

  /** `int(self.action_cooldown * 1000)` */
  function CooldownMs(cooldown: real): int {
    Truncate(cooldown * 1000.0)
  }

  lemma CooldownMsNonNegative(cooldown: real)
    requires cooldown >= 0.0
    ensures CooldownMs(cooldown) >= 0
  {
  }

  predicate Mapped(actions: ActionTable, e: GestureEvent) {
    e.hand in actions && e.name in actions[e.hand]
  }

  /** The keyboard calls of one dispatched action: a chord when combination mode is on and the
      first key is a modifier, key by key otherwise. */
  function Dispatch(named: set<string>, s: HandlerSettings, action: seq<string>): seq<KeyEvent>
    requires |action| > 0
  {
    if s.combinationMode && ActionIsCombination(action)
    then CombinationTrace(named, action, s.pressReleaseWaitTime)
    else SequentialTrace(named, action, s.pressReleaseWaitTime)
  }

  /** What one event does: the new resume timestamp, the keyboard calls, the pushed actions. */
  datatype StepResult = StepResult(resume: int, trace: seq<KeyEvent>, executed: seq<seq<string>>)

  /** One iteration of the loop of run() on a dequeued event; `nowMs` is the clock read after the
      dispatch. */
  function Step(named: set<string>, cfg: HandlerConfig, resume: int, e: GestureEvent, nowMs: int): StepResult
    requires Mapped(cfg.actions, e)
  {
    if e.timestamp < resume then StepResult(resume, [], [])
    else
      var action := cfg.actions[e.hand][e.name];
      if action == [] then StepResult(resume, [], [])
      else StepResult(nowMs + CooldownMs(cfg.settings.actionCooldown), Dispatch(named, cfg.settings, action), [action])
  }

  /** Whether the event clears the staleness gate and is bound to a non-empty action. */
  predicate Fires(cfg: HandlerConfig, resume: int, e: GestureEvent)
    requires Mapped(cfg.actions, e)
  {
    e.timestamp >= resume && cfg.actions[e.hand][e.name] != []
  }

  /** An event made before the resume timestamp presses nothing, pushes nothing and leaves the
      timestamp as it was, so handling it again discards it again. */
  lemma StaleEventIsDiscarded(named: set<string>, cfg: HandlerConfig, resume: int, e: GestureEvent, nowMs: int, laterMs: int)
    requires Mapped(cfg.actions, e) && e.timestamp < resume
    ensures Step(named, cfg, resume, e, nowMs) == StepResult(resume, [], [])
    ensures Step(named, cfg, Step(named, cfg, resume, e, nowMs).resume, e, laterMs) == StepResult(resume, [], [])
  {
  }

  /** A gesture bound to the empty action presses nothing, pushes nothing and leaves the timestamp. */
  lemma UnboundGestureIsNoOp(named: set<string>, cfg: HandlerConfig, resume: int, e: GestureEvent, nowMs: int)
    requires Mapped(cfg.actions, e) && cfg.actions[e.hand][e.name] == []
    ensures Step(named, cfg, resume, e, nowMs) == StepResult(resume, [], [])
  {
  }

  /**
   * An event that clears the gate with a non-empty action is dispatched: its resolvable keys are
   * pressed and released in the action's order, the action is pushed exactly once, and the resume
   * timestamp becomes the clock plus the cooldown in whole milliseconds.
   */
  lemma FiringEventDispatches(named: set<string>, cfg: HandlerConfig, resume: int, e: GestureEvent, nowMs: int)
    requires Mapped(cfg.actions, e) && Fires(cfg, resume, e)
    ensures Step(named, cfg, resume, e, nowMs).executed == [cfg.actions[e.hand][e.name]]
    ensures Step(named, cfg, resume, e, nowMs).resume == nowMs + CooldownMs(cfg.settings.actionCooldown)
    ensures PressedKeys(Step(named, cfg, resume, e, nowMs).trace) == ResolvedKeys(named, cfg.actions[e.hand][e.name])
    ensures ReleasedKeys(Step(named, cfg, resume, e, nowMs).trace) == ResolvedKeys(named, cfg.actions[e.hand][e.name])
  {
    var action := cfg.actions[e.hand][e.name];
    SequentialOrder(named, action, cfg.settings.pressReleaseWaitTime);
    CombinationOrder(named, action, cfg.settings.pressReleaseWaitTime);
  }

  /** The chord is used exactly when combination mode is on and the first key is a modifier; then
      every press precedes every release. Otherwise each press is followed by its own release
      before anything else is pressed. */
  lemma DispatchModeChoice(named: set<string>, s: HandlerSettings, action: seq<string>)
    requires |action| > 0
    ensures s.combinationMode && ActionIsCombination(action) ==>
      Dispatch(named, s, action) == CombinationTrace(named, action, s.pressReleaseWaitTime) &&
      forall p, q :: (0 <= p < |Dispatch(named, s, action)| && 0 <= q < |Dispatch(named, s, action)| &&
        Dispatch(named, s, action)[p].Press? && Dispatch(named, s, action)[q].Release?) ==> p < q
    ensures !(s.combinationMode && ActionIsCombination(action)) ==>
      Dispatch(named, s, action) == SequentialTrace(named, action, s.pressReleaseWaitTime) &&
      forall p :: 0 <= p < |Dispatch(named, s, action)| && Dispatch(named, s, action)[p].Press? ==>
        p + 2 < |Dispatch(named, s, action)| && Dispatch(named, s, action)[p + 2] == Release(Dispatch(named, s, action)[p].key)
  {
    SequentialOrder(named, action, s.pressReleaseWaitTime);
    CombinationOrder(named, action, s.pressReleaseWaitTime);
  }

  /** The handler starts with resume timestamp 0, so a first event with a non-negative timestamp
      clears the gate. */
  lemma FirstEventPassesGate(named: set<string>, cfg: HandlerConfig, e: GestureEvent, nowMs: int)
    requires Mapped(cfg.actions, e) && e.timestamp >= 0 && cfg.actions[e.hand][e.name] != []
    ensures Fires(cfg, 0, e)
    ensures Step(named, cfg, 0, e, nowMs).executed == [cfg.actions[e.hand][e.name]]
  {
  }

  // ---------------------------------------------------------------------------------------------
  // The loop of run() over a FIFO of events
  // ---------------------------------------------------------------------------------------------

  predicate AllMapped(actions: ActionTable, events: seq<GestureEvent>) {
    forall i :: 0 <= i < |events| ==> Mapped(actions, events[i])
  }

  /** The first `n` iterations on `events`, `clock[i]` being the clock read after event `i` is handled. */
  function RunPrefix(named: set<string>, cfg: HandlerConfig, resume: int, events: seq<GestureEvent>, clock: seq<int>, n: nat): StepResult
    requires |clock| == |events| && AllMapped(cfg.actions, events) && n <= |events|
    decreases n
  {
    if n == 0 then StepResult(resume, [], [])
    else
      var prev := RunPrefix(named, cfg, resume, events, clock, n - 1);
      var last := Step(named, cfg, prev.resume, events[n - 1], clock[n - 1]);
      StepResult(last.resume, prev.trace + last.trace, prev.executed + last.executed)
  }

  /** The resume timestamp in force when event `i` is dequeued. */
  function ResumeBefore(named: set<string>, cfg: HandlerConfig, resume: int, events: seq<GestureEvent>, clock: seq<int>, i: nat): int
    requires |clock| == |events| && AllMapped(cfg.actions, events) && i <= |events|
  {
    RunPrefix(named, cfg, resume, events, clock, i).resume
  }

  /** The state after `i` iterations: the resume timestamp, and what was appended to the keyboard
      log and to the executed-actions queue. */
  predicate RanPrefix(named: set<string>, cfg: HandlerConfig, resume0: int, events: seq<GestureEvent>, clock: seq<int>, i: nat,
                      resume: int, trace: seq<KeyEvent>, executed: seq<seq<string>>)
    requires |clock| == |events| && AllMapped(cfg.actions, events) && i <= |events|
  {
    RunPrefix(named, cfg, resume0, events, clock, i) == StepResult(resume, trace, executed)
  }

  lemma AppendAssoc<T>(a: seq<T>, b: seq<T>, c: seq<T>)
    ensures a + b + c == a + (b + c)
  {
  }

  /** Handling event `i` extends a run of `i` iterations to one of `i + 1`. */
  lemma RanPrefixStep(named: set<string>, cfg: HandlerConfig, resume0: int, events: seq<GestureEvent>, clock: seq<int>, i: nat,
                      resume: int, trace: seq<KeyEvent>, executed: seq<seq<string>>)
    requires |clock| == |events| && AllMapped(cfg.actions, events) && i < |events|
    requires RanPrefix(named, cfg, resume0, events, clock, i, resume, trace, executed)
    ensures Mapped(cfg.actions, events[i])
    ensures var st := Step(named, cfg, resume, events[i], clock[i]);
      RanPrefix(named, cfg, resume0, events, clock, i + 1, st.resume, trace + st.trace, executed + st.executed)
  {
  }

  /** The clock is read after the event it follows was made. */
  predicate ClockAfterEvents(events: seq<GestureEvent>, clock: seq<int>)
    requires |clock| == |events|
  {
    forall i :: 0 <= i < |events| ==> clock[i] >= events[i].timestamp
  }

  /** With a non-negative cooldown and a clock read after each event, the resume timestamp never
      moves back. */
  lemma {:induction false} ResumeNeverDecreases(named: set<string>, cfg: HandlerConfig, resume: int,
                                                events: seq<GestureEvent>, clock: seq<int>, i: nat, j: nat)
    requires |clock| == |events| && AllMapped(cfg.actions, events) && ClockAfterEvents(events, clock)
    requires cfg.settings.actionCooldown >= 0.0
    requires i <= j <= |events|
    ensures ResumeBefore(named, cfg, resume, events, clock, i) <= ResumeBefore(named, cfg, resume, events, clock, j)
    decreases j - i
  {
    if i < j {
      ResumeNeverDecreases(named, cfg, resume, events, clock, i + 1, j);
      CooldownMsNonNegative(cfg.settings.actionCooldown);
    }
  }

  /**
   * The cooldown is global: when events `i < j` are both dispatched, event `j` was made no earlier
   * than the cooldown after the clock reading that followed action `i`, whatever hands and gestures
   * the two events carry.
   */
  lemma CooldownSeparatesDispatches(named: set<string>, cfg: HandlerConfig, resume: int,
                                    events: seq<GestureEvent>, clock: seq<int>, i: nat, j: nat)
    requires |clock| == |events| && AllMapped(cfg.actions, events) && ClockAfterEvents(events, clock)
    requires cfg.settings.actionCooldown >= 0.0
    requires i < j < |events|
    requires Fires(cfg, ResumeBefore(named, cfg, resume, events, clock, i), events[i])
    requires Fires(cfg, ResumeBefore(named, cfg, resume, events, clock, j), events[j])
    ensures events[j].timestamp >= clock[i] + CooldownMs(cfg.settings.actionCooldown)
  {
    ResumeNeverDecreases(named, cfg, resume, events, clock, i + 1, j);
  }

  /** Every pushed action is a non-empty action bound in the table, and no more actions are pushed
      than events handled. */
  lemma {:induction false} ExecutedAreBoundActions(named: set<string>, cfg: HandlerConfig, resume: int,
                                                   events: seq<GestureEvent>, clock: seq<int>, n: nat)
    requires |clock| == |events| && AllMapped(cfg.actions, events) && n <= |events|
    ensures |RunPrefix(named, cfg, resume, events, clock, n).executed| <= n
    ensures forall a :: a in RunPrefix(named, cfg, resume, events, clock, n).executed ==>
              a != [] && exists i :: 0 <= i < n && a == cfg.actions[events[i].hand][events[i].name]
    decreases n
  {
    if n > 0 {
      ExecutedAreBoundActions(named, cfg, resume, events, clock, n - 1);
    }
  }

  /** Two Thumb_Up events of the right hand 50 ms apart, a one-second cooldown and the action
      ["space"]: exactly one space press and release, whenever the first dispatch completes. */
  lemma BackToBackGesturesDispatchOnce(named: set<string>, wait: real, t0: int)
    requires "space" in named && t0 >= 1000
    ensures var cfg := HandlerConfig(map["Right" := map["Thumb_Up" := ["space"]]], HandlerSettings(false, wait, 1.0));
            var events := [GestureEvent("Right", "Thumb_Up", 1000), GestureEvent("Right", "Thumb_Up", 1050)];
            var r := RunPrefix(named, cfg, 0, events, [t0, t0 + 5], 2);
            r.executed == [["space"]] &&
            r.trace == [Press(Named("space")), Wait(wait), Release(Named("space"))] &&
            r.resume == t0 + 1000
  {
    var cfg := HandlerConfig(map["Right" := map["Thumb_Up" := ["space"]]], HandlerSettings(false, wait, 1.0));
    var events := [GestureEvent("Right", "Thumb_Up", 1000), GestureEvent("Right", "Thumb_Up", 1050)];
    var clock := [t0, t0 + 5];
    assert CooldownMs(1.0) == 1000;
    assert ["space"][..0] == [];
    assert ResolvedKeys(named, ["space"]) == [Named("space")];
    assert [Named("space")][..0] == [];
    var trace := [Press(Named("space")), Wait(wait), Release(Named("space"))];
    var s1 := Step(named, cfg, 0, events[0], t0);
    assert s1 == StepResult(t0 + 1000, trace, [["space"]]);
    var s2 := Step(named, cfg, t0 + 1000, events[1], t0 + 5);
    assert s2 == StepResult(t0 + 1000, [], []);
    assert RunPrefix(named, cfg, 0, events, clock, 1) == s1;
  }

  // ---------------------------------------------------------------------------------------------
  // Loading the configuration
  // ---------------------------------------------------------------------------------------------

  predicate IsNumber(v: JsonValue) {
    v.JInt? || v.JFloat?
  }

  function NumberValue(v: JsonValue): real
    requires IsNumber(v)
  {
    if v.JInt? then v.i as real else v.f
  }

  /** What load_config and the loop that follows need of the document: the action table as hand,
      gesture, list of strings; the flag a bool; the wait a number `time.sleep` accepts; the
      cooldown a number. */
  predicate Loadable(config: JsonValue) {
    && config.JObject?
    && "Actions" in config.fields && "Settings" in config.fields
    && config.fields["Actions"].JObject?
    && (forall h :: h in config.fields["Actions"].fields ==>
          && config.fields["Actions"].fields[h].JObject?
          && forall g :: g in config.fields["Actions"].fields[h].fields ==>
               IsStringList(config.fields["Actions"].fields[h].fields[g]))
    && config.fields["Settings"].JObject?
    && "COMBINATION_MODE" in config.fields["Settings"].fields
    && "PRESS_RELEASE_WAIT_TIME" in config.fields["Settings"].fields
    && "ACTION_COOLDOWN" in config.fields["Settings"].fields
    && config.fields["Settings"].fields["COMBINATION_MODE"].JBool?
    && IsNumber(config.fields["Settings"].fields["PRESS_RELEASE_WAIT_TIME"])
    && NumberValue(config.fields["Settings"].fields["PRESS_RELEASE_WAIT_TIME"]) >= 0.0
    && IsNumber(config.fields["Settings"].fields["ACTION_COOLDOWN"])
  }

  function ActionTableOf(config: JsonValue): ActionTable
    requires Loadable(config)
  {
    var a := config.fields["Actions"].fields;
    map h | h in a :: map g | g in a[h].fields :: Strings(a[h].fields[g])
  }

  function SettingsOf(config: JsonValue): HandlerSettings
    requires Loadable(config)
  {
    var s := config.fields["Settings"].fields;
    HandlerSettings(s["COMBINATION_MODE"].b, NumberValue(s["PRESS_RELEASE_WAIT_TIME"]), NumberValue(s["ACTION_COOLDOWN"]))
  }

  /** A document that passes check() can be loaded, every event of the fourteen (hand, gesture)
      pairs finds its action, and the loaded cooldown is not negative. */
  lemma CheckedConfigLoads(config: JsonValue)
    requires ConfigFile.Check(config)
    ensures Loadable(config)
    ensures SettingsOf(config).actionCooldown >= 0.0
    ensures forall h, g :: h in ConfigFile.Hands && g in ConfigFile.Gestures ==>
              Mapped(ActionTableOf(config), GestureEvent(h, g, 0))
  {
    ConfigFile.CheckIsStructural(config);
    WellFormedConfigLoads(config);
  }

  lemma WellFormedConfigLoads(config: JsonValue)
    requires ConfigFile.WellFormed(config)
    ensures Loadable(config)
    ensures SettingsOf(config).actionCooldown >= 0.0
    ensures forall h, g :: h in ConfigFile.Hands && g in ConfigFile.Gestures ==>
              Mapped(ActionTableOf(config), GestureEvent(h, g, 0))
  {
    var a := config.fields["Actions"];
    forall h | h in a.fields
      ensures a.fields[h].JObject? && forall g :: g in a.fields[h].fields ==> IsStringList(a.fields[h].fields[g])
    {
      assert h == "Left" || h == "Right";
    }
  }

  /** GestureHandler: the consumer thread of the gesture queue. */
  class GestureHandler {
    const stopRecognizer: StopSignal
    const gestureQueue: Fifo<GestureEvent>
    const executedActionQueue: Fifo<seq<string>>
    const keyboard: Keyboard

    /** Whether load_config has run; until then the table and settings are Python's `None`. */
    var loaded: bool
    var actions: ActionTable
    var settings: HandlerSettings

    /** The end of the last action plus the cooldown, in milliseconds. */
    var resumeTimestamp: int

    constructor (stopRecognizer: StopSignal, gestureQueue: Fifo<GestureEvent>,
                 executedActionQueue: Fifo<seq<string>>, keyboard: Keyboard)
      ensures this.stopRecognizer == stopRecognizer && this.gestureQueue == gestureQueue
      ensures this.executedActionQueue == executedActionQueue && this.keyboard == keyboard
      ensures !loaded && resumeTimestamp == 0
    {
      this.stopRecognizer := stopRecognizer;
      this.gestureQueue := gestureQueue;
      this.executedActionQueue := executedActionQueue;
      this.keyboard := keyboard;
      loaded := false;
      actions := map[];
      settings := HandlerSettings(false, 0.0, 0.0);
      resumeTimestamp := 0;
    }

    /** load_config(config) */
    method LoadConfig(config: JsonValue)
      requires Loadable(config)
      modifies this`loaded, this`actions, this`settings
      ensures loaded && actions == ActionTableOf(config) && settings == SettingsOf(config)
    {
      actions := ActionTableOf(config);
      settings := SettingsOf(config);
      loaded := true;
    }

    /** execute_action(action) */
    method ExecuteAction(action: seq<string>)
      modifies keyboard
      ensures keyboard.log == old(keyboard.log) + SequentialTrace(keyboard.namedKeys, action, settings.pressReleaseWaitTime)
    {
      var wait := settings.pressReleaseWaitTime;
      var i := 0;
      while i < |action|
        invariant 0 <= i <= |action|
        invariant keyboard.log == old(keyboard.log) + SequentialTrace(keyboard.namedKeys, action[..i], wait)
      {
        var done := ResolvedKeys(keyboard.namedKeys, action[..i]);
        assert action[..i + 1][..i] == action[..i];
        var key := Resolve(keyboard.namedKeys, action[i]);
        if key.Some? {
          keyboard.PressKey(key.value);
          keyboard.Sleep(wait);
          keyboard.ReleaseKey(key.value);
          assert (done + [key.value])[..|done|] == done;
        }
        i := i + 1;
      }
      assert action[..|action|] == action;
    }

    /** execute_combination(action): press every key, wait once, release every key. */
    method ExecuteCombination(action: seq<string>)
      modifies keyboard
      ensures keyboard.log == old(keyboard.log) + CombinationTrace(keyboard.namedKeys, action, settings.pressReleaseWaitTime)
    {
      PressEach(action);
      keyboard.Sleep(settings.pressReleaseWaitTime);
      ReleaseEach(action);
    }

    /** The first loop of execute_combination: press the keys in order. */
    method PressEach(action: seq<string>)
      modifies keyboard
      ensures keyboard.log == old(keyboard.log) + PressAll(ResolvedKeys(keyboard.namedKeys, action))
    {
      var i := 0;
      while i < |action|
        invariant 0 <= i <= |action|
        invariant keyboard.log == old(keyboard.log) + PressAll(ResolvedKeys(keyboard.namedKeys, action[..i]))
      {
        var done := ResolvedKeys(keyboard.namedKeys, action[..i]);
        assert action[..i + 1][..i] == action[..i];
        var key := Resolve(keyboard.namedKeys, action[i]);
        if key.Some? {
          keyboard.PressKey(key.value);
          PressAllSnoc(done, key.value);
        }
        i := i + 1;
      }
      assert action[..|action|] == action;
    }

    /** The second loop of execute_combination: release the keys in the same order. */
    method ReleaseEach(action: seq<string>)
      modifies keyboard
      ensures keyboard.log == old(keyboard.log) + ReleaseAll(ResolvedKeys(keyboard.namedKeys, action))
    {
      var i := 0;
      while i < |action|
        invariant 0 <= i <= |action|
        invariant keyboard.log == old(keyboard.log) + ReleaseAll(ResolvedKeys(keyboard.namedKeys, action[..i]))
      {
        var done := ResolvedKeys(keyboard.namedKeys, action[..i]);
        assert action[..i + 1][..i] == action[..i];
        var key := Resolve(keyboard.namedKeys, action[i]);
        if key.Some? {
          keyboard.ReleaseKey(key.value);
          ReleaseAllSnoc(done, key.value);
        }
        i := i + 1;
      }
      assert action[..|action|] == action;
    }

    /** The body of the loop of run() once an event has been dequeued. */
    method HandleEvent(e: GestureEvent, nowMs: int)
      requires loaded && Mapped(actions, e)
      modifies this`resumeTimestamp, keyboard, executedActionQueue
      ensures var st := Step(keyboard.namedKeys, HandlerConfig(actions, settings), old(resumeTimestamp), e, nowMs);
        && resumeTimestamp == st.resume
        && keyboard.log == old(keyboard.log) + st.trace
        && executedActionQueue.items == old(executedActionQueue.items) + st.executed
    {
      if e.timestamp >= resumeTimestamp {
        var action := actions[e.hand][e.name];
        if action != [] {
          if settings.combinationMode && ActionIsCombination(action) {
            ExecuteCombination(action);
          } else {
            ExecuteAction(action);
          }
          executedActionQueue.Put(action);
          resumeTimestamp := nowMs + CooldownMs(settings.actionCooldown);
        }
      }
    }

    /**
     * run(): while the stop flag is clear, take the next event and handle it. `clock[i]` is the
     * clock read after the i-th queued event is handled. Where the source finds the queue empty,
     * sleeps and polls again, the model returns; a later call goes on from the same state.
     */
    method Run(clock: seq<int>)
      requires loaded
      requires |clock| == |gestureQueue.items| && AllMapped(actions, gestureQueue.items)
      modifies this`resumeTimestamp, keyboard, executedActionQueue, gestureQueue
      ensures old(stopRecognizer.isSet) ==>
        && gestureQueue.items == old(gestureQueue.items) && resumeTimestamp == old(resumeTimestamp)
        && keyboard.log == old(keyboard.log) && executedActionQueue.items == old(executedActionQueue.items)
      ensures !old(stopRecognizer.isSet) ==>
        && gestureQueue.items == []
        && resumeTimestamp == RunPrefix(keyboard.namedKeys, HandlerConfig(actions, settings), old(resumeTimestamp), old(gestureQueue.items), clock, |old(gestureQueue.items)|).resume
        && keyboard.log == old(keyboard.log) + RunPrefix(keyboard.namedKeys, HandlerConfig(actions, settings), old(resumeTimestamp), old(gestureQueue.items), clock, |old(gestureQueue.items)|).trace
        && executedActionQueue.items == old(executedActionQueue.items) + RunPrefix(keyboard.namedKeys, HandlerConfig(actions, settings), old(resumeTimestamp), old(gestureQueue.items), clock, |old(gestureQueue.items)|).executed
    {
      if !stopRecognizer.isSet {
        Drain(clock);
      }
    }

    /** The loop of run() while the flag stays clear: every queued event is handled in order. */
    method Drain(clock: seq<int>)
      requires loaded && !stopRecognizer.isSet
      requires |clock| == |gestureQueue.items| && AllMapped(actions, gestureQueue.items)
      modifies this`resumeTimestamp, keyboard, executedActionQueue, gestureQueue
      ensures gestureQueue.items == []
      ensures var r := RunPrefix(keyboard.namedKeys, HandlerConfig(actions, settings), old(resumeTimestamp), old(gestureQueue.items), clock, |old(gestureQueue.items)|);
        && resumeTimestamp == r.resume
        && keyboard.log == old(keyboard.log) + r.trace
        && executedActionQueue.items == old(executedActionQueue.items) + r.executed
    {
      ghost var queued := gestureQueue.items;
      ghost var resume0, log0, executed0 := resumeTimestamp, keyboard.log, executedActionQueue.items;
      ghost var named, cfg := keyboard.namedKeys, HandlerConfig(actions, settings);
      var i := 0;
      ghost var trace: seq<KeyEvent>, executed: seq<seq<string>> := [], [];
      while !stopRecognizer.isSet
        invariant 0 <= i <= |queued| && gestureQueue.items == queued[i..]
        invariant !stopRecognizer.isSet
        invariant actions == cfg.actions && settings == cfg.settings
        invariant keyboard.log == log0 + trace && executedActionQueue.items == executed0 + executed
        invariant RanPrefix(named, cfg, resume0, queued, clock, i, resumeTimestamp, trace, executed)
        decreases |gestureQueue.items|
      {
        var got := gestureQueue.Get();
        if got.None? {
          break;
        }
        assert got.value == queued[i];
        RanPrefixStep(named, cfg, resume0, queued, clock, i, resumeTimestamp, trace, executed);
        ghost var st := Step(named, cfg, resumeTimestamp, queued[i], clock[i]);
        AppendAssoc(log0, trace, st.trace);
        AppendAssoc(executed0, executed, st.executed);
        HandleEvent(got.value, clock[i]);
        trace, executed := trace + st.trace, executed + st.executed;
        i := i + 1;
      }
    }
  }
}
