/**
 * The parts of the Tkinter front end that compute something: window centring, validation of the
 * settings form before it is saved, and the keyboard capture that records a new action.
 */
module Gui {
  import opened Wrappers
  import opened Json
  import opened ConfigFile

  // ---------------------------------------------------------------------------------------------
  // center_window
  // ---------------------------------------------------------------------------------------------

  /** `(screen - window) // 2`: Python's floor division, which Dafny's `/` matches for divisor 2. */
  function CenterOffset(screen: int, window: int): (r: int)
    ensures 2 * r <= screen - window < 2 * r + 2
  {
    (screen - window) / 2
  }

  /** The `+x+y` position given to `geometry`: the margins on both sides differ by at most one pixel. */
  function CenterPosition(screenWidth: int, screenHeight: int, width: int, height: int): (pos: (int, int))
    ensures 0 <= (screenWidth - width - pos.0) - pos.0 <= 1
    ensures 0 <= (screenHeight - height - pos.1) - pos.1 <= 1
  {
    (CenterOffset(screenWidth, width), CenterOffset(screenHeight, height))
  }

  /** A window wider than the screen gets a negative offset rounded down, as `//` does. */
  lemma CenterOffsetRoundsDown()
    ensures CenterOffset(1920, 400) == 760
    ensures CenterOffset(1921, 400) == 760
    ensures CenterOffset(100, 103) == -2
  {
  }

  // ---------------------------------------------------------------------------------------------
  // save_settings_to_file
  // ---------------------------------------------------------------------------------------------

  /**
   * The form's fields after `float()`: `None` where the entry's text is not a number. The
   * checkbox state is a bool.
   */
  datatype SettingsForm = SettingsForm(combinationMode: bool, pressReleaseWait: Option<real>, actionCooldown: Option<real>)

  datatype FormCheck = Valid(settings: JsonValue) | NotANumber | NegativeValue

  /**
   * Both entries are parsed (a `ValueError` comes first), then a negative value is rejected; what
   * remains is the settings object with exactly the three keys.
   */
  function SettingsFromForm(form: SettingsForm): (r: FormCheck)
    ensures r.NotANumber? <==> form.pressReleaseWait.None? || form.actionCooldown.None?
    ensures r.NegativeValue? <==>
      && form.pressReleaseWait.Some? && form.actionCooldown.Some?
      && (form.pressReleaseWait.value < 0.0 || form.actionCooldown.value < 0.0)
    ensures r.Valid? ==>
      && SettingsOk(r.settings)
      && r.settings.fields["COMBINATION_MODE"] == JBool(form.combinationMode)
      && r.settings.fields["PRESS_RELEASE_WAIT_TIME"] == JFloat(form.pressReleaseWait.value)
      && r.settings.fields["ACTION_COOLDOWN"] == JFloat(form.actionCooldown.value)
  {
    if form.pressReleaseWait.None? || form.actionCooldown.None? then NotANumber
    else
      var prWait := form.pressReleaseWait.value;
      var cooldown := form.actionCooldown.value;
      if prWait < 0.0 || cooldown < 0.0 then NegativeValue
      else Valid(JObject(map[
        "COMBINATION_MODE" := JBool(form.combinationMode),
        "PRESS_RELEASE_WAIT_TIME" := JFloat(prWait),
        "ACTION_COOLDOWN" := JFloat(cooldown)]))
  }

  /** Whatever the file held before, accepted settings are saved into a valid file and read back as entered. */
  lemma AcceptedSettingsReadBack(form: SettingsForm, file: Option<JsonValue>)
    requires SettingsFromForm(form).Valid?
    ensures Check(WithSettings(Prepared(file), SettingsFromForm(form).settings))
    ensures RetrieveSettings(Some(WithSettings(Prepared(file), SettingsFromForm(form).settings))) ==
            SettingsFromForm(form).settings
  {
    SaveSettingsRoundTrip(Prepared(file), SettingsFromForm(form).settings);
  }

  datatype SaveOutcome = Saved | SaveFailed | InvalidNumber | NegativeTime

  /** The settings window: closed once its settings are saved. */
  class SettingsWindow {
    const store: ConfigStore
    var isOpen: bool

    constructor (store: ConfigStore)
      ensures this.store == store && isOpen
    {
      this.store := store;
      isOpen := true;
    }

    method SaveSettingsToFile(form: SettingsForm) returns (outcome: SaveOutcome)
      modifies this`isOpen, store
      ensures outcome == InvalidNumber <==> SettingsFromForm(form).NotANumber?
      ensures outcome == NegativeTime <==> SettingsFromForm(form).NegativeValue?
      ensures !SettingsFromForm(form).Valid? ==> store.file == old(store.file) && isOpen == old(isOpen)
      ensures SettingsFromForm(form).Valid? ==>
        && (outcome == Saved <==> store.writable)
        && (outcome == Saved ==> !isOpen && store.file == Some(WithSettings(Prepared(old(store.file)), SettingsFromForm(form).settings)))
        && (outcome == SaveFailed ==> isOpen == old(isOpen) && store.file == old(store.file))
    {
      var checked := SettingsFromForm(form);
      match checked {
        case NotANumber => outcome := InvalidNumber;
        case NegativeValue => outcome := NegativeTime;
        case Valid(settings) =>
          var ok := store.SaveSettings(settings);
          if ok {
            isOpen := false;
            outcome := Saved;
          } else {
            outcome := SaveFailed;
          }
      }
    }
  }

  // ---------------------------------------------------------------------------------------------
  // capture_action: the listener's on_press / on_release
  // ---------------------------------------------------------------------------------------------

  /**
   * What the listener hands its callbacks: nothing, a named `Key` (its `name`, such as "esc" or
   * "ctrl_l"), or a `KeyCode` whose `char` may be `None`.
   */
  datatype ListenerKey = NoKey | Special(name: string) | Code(ch: Option<string>)

  const EscKey: ListenerKey := Special("esc")

  datatype ListenerEvent = Pressed(key: ListenerKey) | Released(key: ListenerKey)

  /** What on_press reads from a key: `key.char`, and `key.name` when the key has no `char` attribute. */
  function Label(k: ListenerKey): Option<string>
    requires k != NoKey
  {
    match k
    case Special(name) => Some(name)
    case Code(ch) => ch
  }

  /** What on_press appends as written: anything but `None` and Esc, even a `char` of `None`. */
  function EntryAsWritten(k: ListenerKey): Option<Option<string>> {
    if k == NoKey || k == EscKey then None else Some(Label(k))
  }

  /** What on_press is meant to append: a key name; a key without one is skipped. */
  function NamedEntry(k: ListenerKey): Option<string> {
    if k == NoKey || k == EscKey then None else Label(k)
  }

  /** The captured keys, and whether the listener is still running. */
  datatype CaptureState<L> = CaptureState(captured: seq<L>, listening: bool)

  /** One callback: a press appends its entry and stops the listener at three keys; releasing Esc stops it. */
  function Step<L>(st: CaptureState<L>, ev: ListenerEvent, entryOf: ListenerKey -> Option<L>): CaptureState<L> {
    if !st.listening then st
    else match ev
      case Pressed(k) =>
        if entryOf(k).None? then st
        else
          var c := st.captured + [entryOf(k).value];
          CaptureState(c, |c| != 3)
      case Released(k) =>
        if k == EscKey then CaptureState(st.captured, false) else st
  }

  function CaptureFrom<L>(st: CaptureState<L>, evs: seq<ListenerEvent>, entryOf: ListenerKey -> Option<L>): CaptureState<L>
    decreases |evs|
  {
    if evs == [] then st else CaptureFrom(Step(st, evs[0], entryOf), evs[1..], entryOf)
  }

  /** capture_action from its empty list, over the whole event stream. */
  function Capture<L>(evs: seq<ListenerEvent>, entryOf: ListenerKey -> Option<L>): CaptureState<L> {
    CaptureFrom(CaptureState([], true), evs, entryOf)
  }

  // The reference: what was pressed before Esc was released, cut at three keys.

  predicate EscReleased(evs: seq<ListenerEvent>) {
    exists i :: 0 <= i < |evs| && evs[i] == Released(EscKey)
  }

  /** The entries of the presses before the first release of Esc. */
  function Entries<L>(evs: seq<ListenerEvent>, entryOf: ListenerKey -> Option<L>): seq<L>
    decreases |evs|
  {
    if evs == [] then []
    else match evs[0]
      case Released(k) => if k == EscKey then [] else Entries(evs[1..], entryOf)
      case Pressed(k) => (if entryOf(k).Some? then [entryOf(k).value] else []) + Entries(evs[1..], entryOf)
  }

  function Take3<L>(s: seq<L>): seq<L> {
    if |s| <= 3 then s else s[..3]
  }

  lemma {:induction false} StoppedStaysStopped<L>(st: CaptureState<L>, evs: seq<ListenerEvent>, entryOf: ListenerKey -> Option<L>)
    requires !st.listening
    ensures CaptureFrom(st, evs, entryOf) == st
    decreases |evs|
  {
    if evs != [] {
      StoppedStaysStopped(st, evs[1..], entryOf);
    }
  }

  lemma EscReleasedTail(evs: seq<ListenerEvent>)
    requires evs != [] && evs[0] != Released(EscKey)
    ensures EscReleased(evs) <==> EscReleased(evs[1..])
  {
    if EscReleased(evs) {
      var i :| 0 <= i < |evs| && evs[i] == Released(EscKey);
      assert evs[1..][i - 1] == evs[i];
    }
    if EscReleased(evs[1..]) {
      var i :| 0 <= i < |evs[1..]| && evs[1..][i] == Released(EscKey);
      assert evs[i + 1] == evs[1..][i];
    }
  }

  lemma {:induction false} CaptureFromSpec<L>(st: CaptureState<L>, evs: seq<ListenerEvent>, entryOf: ListenerKey -> Option<L>)
    requires st.listening && |st.captured| < 3
    ensures CaptureFrom(st, evs, entryOf).captured == Take3(st.captured + Entries(evs, entryOf))
    ensures CaptureFrom(st, evs, entryOf).listening <==> !EscReleased(evs) && |st.captured + Entries(evs, entryOf)| < 3
    decreases |evs|
  {
    if evs == [] {
      assert st.captured + [] == st.captured;
    } else {
      var st' := Step(st, evs[0], entryOf);
      var rest := evs[1..];
      match evs[0]
      case Released(k) =>
        if k == EscKey {
          StoppedStaysStopped(st', rest, entryOf);
          assert st.captured + [] == st.captured;
        } else {
          EscReleasedTail(evs);
          CaptureFromSpec(st, rest, entryOf);
        }
      case Pressed(k) =>
        EscReleasedTail(evs);
        if entryOf(k).None? {
          assert Entries(evs, entryOf) == [] + Entries(rest, entryOf);
          assert [] + Entries(rest, entryOf) == Entries(rest, entryOf);
          CaptureFromSpec(st, rest, entryOf);
        } else {
          var x := entryOf(k).value;
          assert Entries(evs, entryOf) == [x] + Entries(rest, entryOf);
          assert st.captured + Entries(evs, entryOf) == st'.captured + Entries(rest, entryOf);
          if |st'.captured| < 3 {
            CaptureFromSpec(st', rest, entryOf);
          } else {
            StoppedStaysStopped(st', rest, entryOf);
            assert (st'.captured + Entries(rest, entryOf))[..3] == st'.captured;
          }
        }
    }
  }

  /**
   * The capture records the entries of the keys pressed before Esc was released, at most three of
   * them; the listener is still running exactly when Esc has not been released and fewer than three
   * keys were recorded.
   */
  lemma CaptureRecordsFirstThree<L>(evs: seq<ListenerEvent>, entryOf: ListenerKey -> Option<L>)
    ensures Capture(evs, entryOf).captured == Take3(Entries(evs, entryOf))
    ensures |Capture(evs, entryOf).captured| <= 3
    ensures Capture(evs, entryOf).listening <==> !EscReleased(evs) && |Entries(evs, entryOf)| < 3
  {
    CaptureFromSpec(CaptureState([], true), evs, entryOf);
    assert [] + Entries(evs, entryOf) == Entries(evs, entryOf);
  }

  /** Neither Esc nor a missing key is ever recorded; every recorded name is a key's label. */
  lemma {:induction false} EntriesAreLabels(evs: seq<ListenerEvent>)
    ensures forall i :: 0 <= i < |Entries(evs, NamedEntry)| ==>
              exists j :: 0 <= j < |evs| && IsRecordablePress(evs[j], Entries(evs, NamedEntry)[i])
    decreases |evs|
  {
    if evs != [] {
      var rest := evs[1..];
      EntriesAreLabels(rest);
      var e := Entries(evs, NamedEntry);
      var er := Entries(rest, NamedEntry);
      forall i | 0 <= i < |e|
        ensures exists j :: 0 <= j < |evs| && IsRecordablePress(evs[j], e[i])
      {
        if evs[0].Released? {
          assert e == er;
          var j :| 0 <= j < |rest| && IsRecordablePress(rest[j], er[i]);
          assert evs[j + 1] == rest[j];
        } else if NamedEntry(evs[0].key).Some? {
          assert e == [NamedEntry(evs[0].key).value] + er;
          if i == 0 {
            assert IsRecordablePress(evs[0], e[0]);
          } else {
            assert e[i] == er[i - 1];
            var j :| 0 <= j < |rest| && IsRecordablePress(rest[j], er[i - 1]);
            assert evs[j + 1] == rest[j];
          }
        } else {
          assert e == [] + er;
          var j :| 0 <= j < |rest| && IsRecordablePress(rest[j], er[i]);
          assert evs[j + 1] == rest[j];
        }
      }
      assert e == Entries(evs, NamedEntry);
    } else {
      assert |Entries(evs, NamedEntry)| == 0;
    }
  }

  /** `name` was recorded from this event: a press of a key other than Esc whose label is `name`. */
  predicate IsRecordablePress(ev: ListenerEvent, name: string) {
    ev.Pressed? && ev.key != NoKey && ev.key != EscKey && Label(ev.key) == Some(name)
  }

  lemma CaptureExamples()
    ensures Capture([Pressed(Special("ctrl_l")), Pressed(Code(Some("c"))), Released(Code(Some("c")))], NamedEntry)
            == CaptureState(["ctrl_l", "c"], true)
    ensures Capture([Pressed(EscKey), Released(EscKey), Pressed(Code(Some("a")))], NamedEntry) == CaptureState([], false)
    ensures Capture([Pressed(NoKey), Pressed(Code(Some("a"))), Pressed(Code(Some("b"))), Pressed(Code(Some("c"))),
                     Pressed(Code(Some("d")))], NamedEntry) == CaptureState(["a", "b", "c"], false)
  {
    var e1 := [Pressed(Special("ctrl_l")), Pressed(Code(Some("c"))), Released(Code(Some("c")))];
    assert Step(CaptureState([], true), e1[0], NamedEntry) == CaptureState(["ctrl_l"], true);
    assert e1[1..][1..] == [Released(Code(Some("c")))];
    var e2 := [Pressed(EscKey), Released(EscKey), Pressed(Code(Some("a")))];
    assert NamedEntry(EscKey).None?;
    assert Step(CaptureState([], true), e2[0], NamedEntry) == CaptureState([], true);
    assert Step(CaptureState([], true), e2[1], NamedEntry) == CaptureState([], false);
    assert e2[1..][1..] == [Pressed(Code(Some("a")))];
    StoppedStaysStopped(CaptureState([], false), [Pressed(Code(Some("a")))], NamedEntry);
    assert CaptureFrom(CaptureState([], true), e2[1..], NamedEntry) == CaptureState([], false);
    assert Capture(e2, NamedEntry) == CaptureFrom(CaptureState([], true), e2[1..], NamedEntry);
    var e3 := [Pressed(NoKey), Pressed(Code(Some("a"))), Pressed(Code(Some("b"))), Pressed(Code(Some("c"))),
               Pressed(Code(Some("d")))];
    var s3 := CaptureState(["a", "b", "c"], false);
    assert e3[1..][1..][1..] == [Pressed(Code(Some("c"))), Pressed(Code(Some("d")))];
    StoppedStaysStopped(s3, [Pressed(Code(Some("d")))], NamedEntry);
  }

  // ---------------------------------------------------------------------------------------------
  // The key code without a character
  // ---------------------------------------------------------------------------------------------

  /** How `json.dump` writes the captured list: `None` becomes `null`. */
  function ActionDocument(captured: seq<Option<string>>): (v: JsonValue)
    ensures v.JList? && |v.items| == |captured|
    ensures IsStringList(v) <==> forall i :: 0 <= i < |captured| ==> captured[i].Some?
  {
    var v := JList(seq(|captured|, i requires 0 <= i < |captured| =>
      if captured[i].Some? then JString(captured[i].value) else JNull));
    assert forall i :: 0 <= i < |captured| ==> (v.items[i].JString? <==> captured[i].Some?);
    v
  }

  /**
   * As written, a key code whose `char` is `None` is captured as `None`; saving that action writes
   * `[null]`, after which the file fails check() (so the next launch replaces every binding with
   * the defaults).
   */
  lemma UnnamedKeyCodeBreaksTheFile()
    ensures Capture([Pressed(Code(None))], EntryAsWritten) == CaptureState([None], true)
    ensures !Check(WithAction(BaseConfig, "Left", "Victory",
                              ActionDocument(Capture([Pressed(Code(None))], EntryAsWritten).captured)).value)
  {
    BaseConfigChecks();
    var doc := ActionDocument([None]);
    assert doc.items[0] == JNull;
    SaveActionCanBreakCheck(BaseConfig, "Left", "Victory", doc);
  }

  /** With key codes without a character skipped, any capture saved under a hand and gesture keeps the file valid and reads back. */
  lemma CapturedActionReadsBack(file: Option<JsonValue>, hand: string, gesture: string, evs: seq<ListenerEvent>)
    requires hand in Hands && gesture in Gestures
    ensures Check(WithAction(Prepared(file), hand, gesture, StringList(Capture(evs, NamedEntry).captured)).value)
    ensures RetrieveAction(Some(WithAction(Prepared(file), hand, gesture, StringList(Capture(evs, NamedEntry).captured)).value),
                           hand, gesture) == Capture(evs, NamedEntry).captured
  {
    SaveActionRoundTrip(Prepared(file), hand, gesture, Capture(evs, NamedEntry).captured);
  }

  /** The capture as the listener thread runs it: callbacks until one stops the listener. The
      callbacks follow the corrected entry rule, NamedEntry, which skips a key code without a
      character; the rule as written is EntryAsWritten. */
  class KeyCapture {
    var captured: seq<string>
    var listening: bool

    constructor ()
      ensures captured == [] && listening
    {
      captured := [];
      listening := true;
    }

    function State(): CaptureState<string>
      reads this
    {
      CaptureState(captured, listening)
    }

    /** on_press: the listener calls it only while it runs. */
    method OnPress(k: ListenerKey)
      requires listening
      modifies this
      ensures State() == Step(old(State()), Pressed(k), NamedEntry)
    {
      if k != NoKey && k != EscKey {
        var pressed := Label(k);
        if pressed.Some? {
          captured := captured + [pressed.value];
          if |captured| == 3 {
            listening := false;
          }
        }
      }
    }

    /** on_release */
    method OnRelease(k: ListenerKey)
      requires listening
      modifies this
      ensures State() == Step(old(State()), Released(k), NamedEntry)
    {
      if k == EscKey {
        listening := false;
      }
    }

    /** The listener: deliver events until a callback stops it. */
    method Listen(evs: seq<ListenerEvent>)
      modifies this
      ensures State() == CaptureFrom(old(State()), evs, NamedEntry)
    {
      var i := 0;
      while i < |evs| && listening
        invariant 0 <= i <= |evs|
        invariant CaptureFrom(old(State()), evs, NamedEntry) == CaptureFrom(State(), evs[i..], NamedEntry)
      {
        assert evs[i..][1..] == evs[i + 1..];
        match evs[i] {
          case Pressed(k) => OnPress(k);
          case Released(k) => OnRelease(k);
        }
        i := i + 1;
      }
      if i < |evs| {
        StoppedStaysStopped(State(), evs[i..], NamedEntry);
      }
    }

    /** save_action_to_file: the captured keys become the gesture's action. */
    method SaveToFile(store: ConfigStore, hand: string, gesture: string) returns (ok: bool)
      modifies store
      ensures ok == (store.writable && hand in Hands)
      ensures ok ==> store.file == WithAction(Prepared(old(store.file)), hand, gesture, StringList(captured))
      ensures !store.writable ==> store.file == old(store.file)
    {
      ok := store.SaveAction(hand, gesture, StringList(captured));
    }
  }
}
