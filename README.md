# gesture-maestro, modelled in Dafny

gesture-maestro turns hand gestures seen by a webcam into keyboard input. It runs as a pipeline of three threads:

- **Recognizer.** A camera thread feeds frames to a gesture recognition model. The model's callback puts each annotated frame on a display queue. It also puts every confident detection, `{hand, name, timestamp}`, on a gesture queue.
- **Handler.** A handler thread takes those events in order. It drops any event made before its *resume timestamp*. It looks up the action bound to the (hand, gesture) pair and presses the action's key identifiers, either one key at a time or as a chord. Then it pushes the action to an executed-actions queue and moves the resume timestamp to now plus the cooldown.
- **Front end.** A Tkinter front end edits the JSON configuration file. That file holds two things: the action table for two hands by seven gestures, and three settings (combination mode, press–release wait, action cooldown). To record a new action, the front end captures keys through a keyboard listener.

## What the project covers

The project models:

- the configuration file's default document;
- its validation, `check()`;
- its two readers, which fall back to defaults;
- its two single-path writers;
- the handler's loop, as a step function and a fold over the queue;
- the key dispatch, as a trace of controller calls;
- the recognizer's detection filter and its camera loop;
- three parts of the front end: window centring, settings-form validation, and the three-key capture state machine.

## How it is modelled

**Threads and queues.**
- The threads are modelled one at a time.
- Queues are `Pipeline.Fifo` objects. Their `Get` returns `None` where Python raises `queue.Empty`.
- The shared `threading.Event` is `Pipeline.StopSignal`.

**The outside world.**
- The wall clock becomes a parameter: the handler's `Run` takes one clock reading per queued event, and the recognizer's camera reads carry their own timestamps.
- The keyboard controller is a `KeyDispatch.Keyboard` object that logs the calls made on it.
- The file system is a `ConfigFile.ConfigStore`. It holds the decoded document, or `None` when the file is missing or unreadable, plus whether writes succeed.

**Files.** The model is split into these files:
- `wrappers.dfy`: `Option`, and Python's raised-or-returned outcome;
- `json.dfy`: decoded JSON values with Python's `type()`;
- `config_file.dfy`;
- `keyboard.dfy`;
- `pipeline.dfy`;
- `gesture_handler.dfy`;
- `gesture_recognizer.dfy`;
- `gui.dfy`.

**Python semantics written out explicitly.**
- JSON `int` and `float` stay distinct, because `check()` compares `type()`s and `bool` is not `int` there.
- `int()` truncates toward zero.
- `//` floors.
- `if action:` is false on the empty list.
- `p in s` on strings is substring search.

**Two facts about the program's state.**
- An event carries only the hand, the gesture name and the timestamp (gesture_recognizer.py:97-101); the score is not passed on.
- The resume timestamp starts at 0 (gesture_handler.py:28).

## Model

| member | source | states |
|---|---|---|
| Json.StringList | config_file.py:161 | the JSON list written for a list of key names is a list of exactly those strings, in order |
| Json.Strings | config_file.py:109-113 | the strings read from a list of strings rebuild that same list |
| Json.StringsOfStringList | config_file.py:109-113 | writing a list of strings and reading it back gives the same strings |
| ConfigFile.BaseConfigKeys | config_file.py:5-31 | the default document has exactly the sections Actions and Settings, holding the default action table and settings |
| ConfigFile.BaseConfigChecks | config_file.py:5-31 | the default document `create()` writes passes `check()` |
| ConfigFile.BaseConfigWellFormed | config_file.py:5-31 | the default document binds all 14 pairs to empty lists and holds typed, non-negative settings |
| ConfigFile.SettingsSection | config_file.py:56-64 | the generic second-level walk accepts a Settings section exactly when it has the three keys, a bool, and two non-negative floats |
| ConfigFile.HandEntry | config_file.py:66-80 | the third-level walk accepts a hand exactly when it has the seven gestures, each a list of strings |
| ConfigFile.ActionsSection | config_file.py:48-80 | the walk accepts Actions exactly when it has the two hands and each is well formed |
| ConfigFile.Check | config_file.py:38-84 | `check()` on the decoded document: the top-level keys equal BASE_CONFIG_DICT's; each section has the default's keys; each setting has the default's type and the two timings are not negative; each hand has the seven gestures, each a list of strings; every exception it catches gives false |
| ConfigFile.CheckSections | config_file.py:44-51 | `check()` holds exactly when the top-level keys match and both sections pass their walk |
| ConfigFile.CheckIsStructural | config_file.py:38-84 | `check()` holds if and only if the document has exactly the reference shape: two sections, two hands of seven string lists, a bool and two non-negative floats |
| ConfigFile.RetrieveSettingsAsWritten | config_file.py:118-137 | `retrieve_settings()` as written: the defaults on a missing file or key or on a failed validation, the stored settings when they validate, and the uncaught TypeError or AttributeError on a non-dict document or Settings |
| ConfigFile.RetrieveSettings | config_file.py:118-137 | the settings returned always pass validation; they are the stored ones when those validate, and the defaults otherwise |
| ConfigFile.RetrieveSettingsAgrees | config_file.py:118-137 | whenever the reader as written returns, it returns the same value as the corrected reader; it raises exactly when the document or its Settings is not a dict |
| ConfigFile.RetrieveSettingsRaisesOnNumber | config_file.py:123-125 | a file whose Settings is a number makes the reader as written raise AttributeError, where the defaults are intended |
| ConfigFile.StoredAction | config_file.py:104 | the value `config["Actions"][hand][gesture]` reaches when each step is a dict holding the key, and nothing otherwise |
| ConfigFile.RetrieveActionAsWritten | config_file.py:99-115 | `retrieve_action` as written: `[]` on a missing file or key or on a list holding a non-string, the stored list otherwise, and the uncaught TypeError when a step meets a non-dict |
| ConfigFile.RetrieveAction | config_file.py:99-115 | returns the stored action when it is a list of strings, and `[]` otherwise |
| ConfigFile.RetrieveActionAgrees | config_file.py:99-115 | whenever the reader as written returns, it returns the same value as the corrected reader; it raises exactly when the document, its Actions section or the hand's entry is present but not a dict |
| ConfigFile.RetrieveActionRaisesOnList | config_file.py:104 | a file whose Actions is a list makes the reader as written raise TypeError, where `[]` is intended |
| ConfigFile.RetrieveActionOnCheckedFile | config_file.py:99-115 | on a file that passes check, each of the 14 (hand, gesture) pairs reads back its stored list |
| ConfigFile.SetEntry | config_file.py:158 | the nested assignment `config["Actions"][hand][gesture] = action` on a document whose path reaches a dict |
| ConfigFile.WithAction | config_file.py:158 | the update fails, which is a KeyError, exactly when the hand is not Left or Right |
| ConfigFile.SetEntryReadsBack | config_file.py:158 | the nested assignment writes its one entry; every other (hand, gesture) entry, the Settings section and the top-level keys read back unchanged |
| ConfigFile.WithSettings | config_file.py:177 | replaces Settings with the given value and leaves every other section unchanged |
| ConfigFile.SaveActionWritesOnlyItsEntry | config_file.py:158 | after saving, the entry reads back as the new action; every other (hand, gesture) entry, the Settings section and the key set are unchanged |
| ConfigFile.SaveActionRoundTrip | config_file.py:151-166 | saving a list of strings under one of the 14 pairs keeps the file valid, and the action reads back unchanged |
| ConfigFile.SaveActionCanBreakCheck | config_file.py:158 | saving under an unknown gesture, or a list holding a non-string, makes `check()` fail afterwards |
| ConfigFile.SetEntryListReadsBack | config_file.py:158 | keys written as a list of strings by the assignment are read back by `retrieve_action` unchanged |
| ConfigFile.SetEntryKeepsShape | config_file.py:158 | on a well-formed document, a list of strings under one of the 14 pairs leaves the document well formed |
| ConfigFile.SetEntryBreaksShape | config_file.py:158 | on a well-formed document, an unknown gesture or a list holding a non-string leaves it malformed |
| ConfigFile.SaveSettingsRoundTrip | config_file.py:170-185 | saving valid settings keeps the file valid, the settings read back unchanged, and the Actions section, with every (hand, gesture) entry, is untouched |
| ConfigFile.Prepared | config_file.py:152 | the document the savers edit always passes check; it is the existing file when that file passes check, and BASE_CONFIG_DICT otherwise, so a save into a malformed file discards every other binding |
| ConfigFile.ConfigStore.Create | config_file.py:87-96 | succeeds exactly when writes succeed; on success the file is the default document, otherwise it is unchanged |
| ConfigFile.ConfigStore.SaveAction | config_file.py:151-166 | on success the file is the checked-or-recreated document with the one entry replaced; the result is false for an unknown hand or a failed write |
| ConfigFile.ConfigStore.SaveSettings | config_file.py:170-185 | on success the file is the checked-or-recreated document with Settings replaced; if the write fails, the file is unchanged |
| KeyDispatch.Resolve | gesture_handler.py:67-80 | what one identifier reaches: a one-character string is that character; any other string is tried as a `Key` name, and is skipped if there is none |
| KeyDispatch.ResolvedKeys | gesture_handler.py:67-80 | an action reaches at most as many keys as it has identifiers |
| KeyDispatch.ResolvedKeysAreResolutions | gesture_handler.py:67-80 | a key is reached exactly when some identifier resolves to it, either as a single character or as a `Key` name |
| KeyDispatch.ResolvedKeysOneToOne | gesture_handler.py:67-80 | when every identifier resolves, the keys match the identifiers one to one, in order |
| KeyDispatch.UnresolvableKeyIsSkipped | gesture_handler.py:79-80 | an identifier that is neither one character nor a `Key` name adds nothing, and the rest of the action is unaffected |
| KeyDispatch.SequentialTrace | gesture_handler.py:66-82 | the keyboard calls of `execute_action`: press, wait and release of each reached key, in order |
| KeyDispatch.CombinationTrace | gesture_handler.py:85-112 | the keyboard calls of `execute_combination`: every reached key pressed, one wait, every reached key released in the same order |
| KeyDispatch.SequentialOrder | gesture_handler.py:66-82 | sequential dispatch presses and releases exactly the reached keys, in action order; each press is followed immediately by the wait and then the release of the same key |
| KeyDispatch.CyclePressIsFollowed | gesture_handler.py:66-82 | every press in a sequential trace is followed by the wait and then by the release of the same key |
| KeyDispatch.CombinationOrder | gesture_handler.py:85-112 | chord dispatch presses all reached keys before releasing any; exactly one wait follows the last press and precedes the first release; the keys are released in the same order they were pressed |
| KeyDispatch.CtrlCChord | gesture_handler.py:85-112 | `["ctrl","c"]` as a chord: ctrl down, c down, wait, ctrl up, c up |
| KeyDispatch.TwoKeysInSequence | gesture_handler.py:66-82 | `["a","b"]` one key at a time: `a` is released before `b` is pressed |
| KeyDispatch.OneBadKeyOfThree | gesture_handler.py:73-80 | a three-key action with one unknown name makes two press–wait–release cycles |
| KeyDispatch.Keyboard.PressKey | gesture_handler.py:69 | a press adds exactly one press call to the log |
| KeyDispatch.Keyboard.ReleaseKey | gesture_handler.py:71 | a release adds exactly one release call to the log |
| KeyDispatch.Keyboard.Sleep | gesture_handler.py:70 | the sleep between calls is logged as one wait |
| Pipeline.Fifo.Put | gesture_recognizer.py:103 | `put` appends the item at the tail |
| Pipeline.Fifo.Get | gesture_handler.py:34 | `get(False)` removes and returns the oldest item; on an empty queue it returns nothing and leaves the queue empty |
| Pipeline.StopSignal.Set | gesture_recognizer.py:57 | the flag is set afterwards |
| GestureHandler.Contains | gesture_handler.py:60 | Python's `p in s`: true if and only if `p` occurs in `s` at some position |
| GestureHandler.AnyModifierIn | gesture_handler.py:59-63 | the loop with its early return is true if and only if some modifier in the list occurs in the first key |
| GestureHandler.ActionIsCombination | gesture_handler.py:55-63 | true if and only if one of ctrl, alt, shift or cmd occurs in the action's first key identifier |
| GestureHandler.CombinationExamples | gesture_handler.py:55-63 | `ctrl_l` and `shift_r` count as modifiers; a modifier in second place does not |
| GestureHandler.Truncate | gesture_handler.py:50 | Python's `int()` on a float: rounds down for non-negative values and up for negative ones |
| GestureHandler.CooldownMsNonNegative | gesture_handler.py:50 | a non-negative cooldown adds a non-negative number of milliseconds |
| GestureHandler.Dispatch | gesture_handler.py:43-46 | the chord when combination mode is on and the first key is a modifier, key by key otherwise |
| GestureHandler.Step | gesture_handler.py:36-50 | one iteration on a dequeued event: a stale event or an empty action changes nothing; otherwise the action is dispatched, pushed, and resume becomes now plus the truncated cooldown |
| GestureHandler.RunPrefix | gesture_handler.py:32-52 | the first `n` iterations of the loop: the steps folded over the events in queue order, each starting from the resume timestamp the previous one left |
| GestureHandler.StaleEventIsDiscarded | gesture_handler.py:36 | an event made before the resume timestamp presses nothing, pushes nothing, and keeps the timestamp, however late it is handled |
| GestureHandler.UnboundGestureIsNoOp | gesture_handler.py:42 | a gesture bound to the empty action presses nothing, pushes nothing, and keeps the timestamp |
| GestureHandler.FiringEventDispatches | gesture_handler.py:36-50 | a fresh event bound to a non-empty action pushes exactly that action, presses and releases exactly its reached keys, and sets resume to now plus the truncated cooldown |
| GestureHandler.DispatchModeChoice | gesture_handler.py:43-46 | the chord is used exactly when combination mode is on and the first key is a modifier; otherwise keys are sent one at a time |
| GestureHandler.FirstEventPassesGate | gesture_handler.py:28 | with the initial resume timestamp of 0, a first event with a non-negative timestamp and a bound action fires |
| GestureHandler.RanPrefixStep | gesture_handler.py:32-52 | handling event `i` after its first `i` iterations yields the run of `i + 1` iterations, extended by exactly one step from the resume timestamp in force |
| GestureHandler.ResumeNeverDecreases | gesture_handler.py:50 | with a non-negative cooldown and the clock read after each event, the resume timestamp never decreases over the run |
| GestureHandler.CooldownSeparatesDispatches | gesture_handler.py:36-50 | when two events both dispatch, the later one was made at least a cooldown after the clock reading that followed the earlier one |
| GestureHandler.ExecutedAreBoundActions | gesture_handler.py:40-48 | every pushed action is a non-empty action bound to the hand and gesture of a queued event, and the run pushes at most one action per event |
| GestureHandler.BackToBackGesturesDispatchOnce | gesture_handler.py:36-50 | two Thumb_Up events 50 ms apart, with a one-second cooldown, dispatch the action once |
| GestureHandler.Loadable | gesture_handler.py:115-119 | the keys `load_config` subscripts are present, with the types the loop then uses |
| GestureHandler.ActionTableOf | gesture_handler.py:116 | the table `self.actions`: for each hand, each gesture's list of key names |
| GestureHandler.SettingsOf | gesture_handler.py:117-119 | combination mode, the press-release wait and the cooldown read from Settings |
| GestureHandler.CheckedConfigLoads | gesture_handler.py:115-119 | a document that passes check can be loaded; every one of the 14 pairs finds its action, and the cooldown is not negative |
| GestureHandler.WellFormedConfigLoads | gesture_handler.py:115-119 | the same, for a document with the table's structure: two hands, each with the seven gestures bound to string lists |
| GestureHandler.GestureHandler.constructor | gesture_handler.py:6-28 | the handler starts with the given queues and flag, and a resume timestamp of 0 |
| GestureHandler.GestureHandler.LoadConfig | gesture_handler.py:115-119 | the action table and the three settings are taken from the document |
| GestureHandler.GestureHandler.ExecuteAction | gesture_handler.py:66-82 | the keyboard log gains exactly the sequential trace of the action |
| GestureHandler.GestureHandler.ExecuteCombination | gesture_handler.py:85-112 | the keyboard log gains exactly the chord trace of the action |
| GestureHandler.GestureHandler.PressEach | gesture_handler.py:86-97 | the keyboard log gains one press per resolvable identifier, in order, and nothing else |
| GestureHandler.GestureHandler.ReleaseEach | gesture_handler.py:101-112 | the keyboard log gains one release per resolvable identifier, in the same order, and nothing else |
| GestureHandler.GestureHandler.HandleEvent | gesture_handler.py:36-50 | the resume timestamp, keyboard log and executed queue change exactly as one step prescribes |
| GestureHandler.GestureHandler.Run | gesture_handler.py:31-52 | with the flag clear, the queue is drained and the state equals the fold of steps over the queued events; with the flag set, nothing changes |
| GestureHandler.GestureHandler.Drain | gesture_handler.py:32-52 | the dequeue loop empties the queue, and the resume timestamp, keyboard log and executed queue equal the fold of steps over the events that were queued |
| GestureRecognizer.Accepted | gesture_recognizer.py:96 | a top gesture is kept when its name is not "None" and its score is at least 0.6 |
| GestureRecognizer.AcceptedIndices | gesture_recognizer.py:92-96 | the indices of the hands whose top gesture is kept, in loop order |
| GestureRecognizer.Detections | gesture_recognizer.py:92-103 | the events put on the gesture queue by one callback, in loop order |
| GestureRecognizer.Submissions | gesture_recognizer.py:43-57 | the timestamps of the frames sent to `recognize_async`: the successful reads before the first failed one |
| GestureRecognizer.AcceptedIndicesSpec | gesture_recognizer.py:92-96 | the accepted hands are listed in strictly increasing index order; an index is listed exactly when its top gesture is not "None" and scores at least 0.6 |
| GestureRecognizer.DetectionsFollowIndices | gesture_recognizer.py:92-103 | the `k`-th event of a callback is the event of the `k`-th accepted hand, and there are as many events as accepted hands |
| GestureRecognizer.DetectionsAreTheAcceptedHands | gesture_recognizer.py:92-103 | event `k` belongs to the `k`-th accepted hand; it carries the top gesture's name, the top handedness label and the frame timestamp, and it is never "None"; there are at most as many events as hands |
| GestureRecognizer.FilterExamples | gesture_recognizer.py:96 | a score of exactly 0.6 passes; 0.59 does not; "None" never passes |
| GestureRecognizer.NothingAfterFailure | gesture_recognizer.py:43-57 | no frame read after a failed read is sent to the model |
| GestureRecognizer.AllSentWithoutFailure | gesture_recognizer.py:43-54 | when no read fails, every captured frame is sent, in order |
| GestureRecognizer.LiveRecognizer.constructor | gesture_recognizer.py:18-28 | the recognizer holds the given flag and queues, and has sent nothing |
| GestureRecognizer.LiveRecognizer.Run | gesture_recognizer.py:43-57 | starting with the flag clear, the flag ends set exactly when some read failed, and the frames sent are the captured reads before the first failure; starting with it set, nothing is sent |
| GestureRecognizer.LiveRecognizer.HandleResult | gesture_recognizer.py:63-103 | each callback puts exactly one frame, stamped with its timestamp, and the accepted detections in index order |
| Gui.CenterOffset | gui.py:394 | floor division: twice the offset is at most the free space and less than the free space plus 2 |
| Gui.CenterPosition | gui.py:388-397 | the margins on each side differ by 0 or 1 pixel, on both axes |
| Gui.CenterOffsetRoundsDown | gui.py:394-395 | odd free space rounds down; a window wider than the screen gets an offset rounded toward minus infinity |
| Gui.SettingsFromForm | gui.py:232-248 | "not a number" exactly when an entry fails `float()`; "negative" exactly when both parse and one is below 0; otherwise the three-key settings object with the given values, which passes validation |
| Gui.AcceptedSettingsReadBack | gui.py:244-250 | accepted settings, saved into any prior file, leave it valid and read back as entered |
| Gui.SettingsWindow.SaveSettingsToFile | gui.py:231-257 | a rejected form saves nothing and keeps the window open; a valid form is saved and closes the window exactly when the write succeeds |
| Gui.EntryAsWritten | gui.py:316-323 | what `on_press` appends as written: nothing for `None` and Esc, otherwise `key.char` if the key has the attribute, even when it is `None`, else `key.name` |
| Gui.NamedEntry | gui.py:316-323 | the corrected entry: the same, except that a key code without a character appends nothing |
| Gui.Step | gui.py:316-331 | one callback: a press appends its entry and stops the listener at 3 keys; releasing Esc stops it; nothing happens once stopped |
| Gui.Capture | gui.py:312-337 | the capture from the empty list over the whole event stream |
| Gui.Entries | gui.py:316-331 | the reference: the entries of the presses before the first release of Esc |
| Gui.StoppedStaysStopped | gui.py:325-331 | once the listener has stopped, later key events change nothing |
| Gui.CaptureFromSpec | gui.py:316-331 | from any running state with fewer than 3 keys, the capture appends the entries pressed before Esc was released, cut at 3 keys; it is still running exactly when Esc was not released and fewer than 3 keys were recorded |
| Gui.CaptureRecordsFirstThree | gui.py:312-331 | a capture records the first 3 entries pressed before Esc was released, and never more than 3; the listener still runs exactly when Esc was not released and fewer than 3 were recorded |
| Gui.EntriesAreLabels | gui.py:317-323 | every recorded name is the label of a press of a key other than Esc and "no key" |
| Gui.CaptureExamples | gui.py:316-331 | ctrl, then c, records both and keeps listening; releasing Esc stops with nothing recorded; a fourth key is ignored, and so is "no key" |
| Gui.ActionDocument | gui.py:355 | the list written for a capture is a list of strings exactly when no entry is `None` |
| Gui.UnnamedKeyCodeBreaksTheFile | gui.py:317-323 | as written, a key code with no character is captured as `None`; saving it writes `[null]`, and the file then fails check |
| Gui.CapturedActionReadsBack | gui.py:354-358 | a capture that skips keys without a name, saved under one of the 14 pairs, keeps the file valid and reads back as captured |
| Gui.KeyCapture.OnPress | gui.py:316-326 | the corrected `on_press` (see Findings): a press changes the capture exactly as one step of the corrected rule does; Esc and "no key" are skipped as the source does, unnamed key codes are skipped where the source appends `None`, and listening stops at 3 keys |
| Gui.KeyCapture.OnRelease | gui.py:329-331 | releasing Esc stops the listener; any other release changes nothing |
| Gui.KeyCapture.Listen | gui.py:333-337 | the final capture is the fold of the corrected callbacks over the events |
| Gui.KeyCapture.SaveToFile | gui.py:354-358 | the keys captured by the corrected rule become the gesture's action in the saved file; if the write fails, the file is unchanged |

## Left out

- **Threads, interleavings, the 0.1 s polling sleeps and the main loop.** Each thread is modelled on its own as a sequential step. `GestureHandler.Run` returns where the source finds the queue empty and would sleep and poll again.
- **The wall clock `time.time()`.** It is replaced by clock readings passed as parameters: one per handled event, and one per camera read.
- **Floating-point rounding, NaN and infinities.** Times are reals. `float("nan")` and `float("inf")` in the settings entries are not modelled; a NaN would pass the negativity test.
- **The parsing of the entry text by `float()`.** Gui.SettingsForm holds its outcome, either a number or "not a number".
- **Controller.InvalidKeyException from pynput.** The platform's set of `Key` names is a parameter of the keyboard, and the exception is taken never to be raised.
- **The camera, `cv2`, the MediaPipe model, image conversion and landmark drawing.** A frame is represented by its timestamp, and a detection result by its ranked categories.
- **Tkinter widgets, message boxes, the image display loop and window construction.** Only the computations behind them are modelled.
- **The window-closed branch of `capture_action`.** It stops the listener and discards the capture.
- **`update_after_action_capture`.** It only changes label texts.
- **`retrieve_configuration`, and `launch_model`'s use of it.** It hands `load_config` the file after `check()` has passed or `create()` has succeeded; GestureHandler.CheckedConfigLoads states what `load_config` then receives.
- **`app.py`.** It only wires the threads and queues together.
- **JSON text: encoding, decoding and `JSONDecodeError`.** A file that cannot be read or decoded is `None` in the store.
- GestureHandler.GestureHandler.LoadConfig requires a document the handler's loop can use. `load_config` on a document lacking a key raises a KeyError, which the model does not represent; its only caller passes a document that has passed `check()`.
- GestureHandler.GestureHandler.Run requires that `load_config` has run, since `self.actions` and the settings are `None` until then (gesture_handler.py:21-25). It also requires every queued event to name a hand and gesture present in the action table. The source would raise a KeyError on any other event; the recognizer only produces the trained gestures, and a checked file binds all 14 pairs.
- GestureRecognizer.LiveRecognizer.HandleResult requires each detected hand to have a handedness entry and a non-empty ranked list of gestures and of handedness. The source indexes `[i][0]` unguarded, relying on the recognition library's result format, which is not part of this model.

## Findings

| source | as written | input that shows it | evidently intended | confidence | as-written member | corrected member |
|---|---|---|---|---|---|---|
| config_file.py:123-125 | `settings.keys()` and `config["Settings"]` on a non-dict raise AttributeError or TypeError, neither of which is caught | a file `{"Settings": 5}` | fall back to the default settings | not executed | ConfigFile.RetrieveSettingsRaisesOnNumber | ConfigFile.RetrieveSettings |
| config_file.py:104 | subscripting a non-dict Actions section or hand raises TypeError, which is not caught | a file `{"Actions": []}` | return `[]` | not executed | ConfigFile.RetrieveActionRaisesOnList | ConfigFile.RetrieveAction |
| gui.py:318-323 | a `KeyCode` whose `char` is `None` has a `char` attribute, so `None` is appended to the capture | a key code with no character, pressed during capture | skip a key that has no name | not executed | Gui.UnnamedKeyCodeBreaksTheFile | Gui.CapturedActionReadsBack, Gui.KeyCapture.OnPress |
