/**
 * The configuration file: its default contents, the structural check made before the file is used,
 * the two readers that fall back to defaults, and the two single-entry updates. The file is modelled
 * as the value `json.load` would produce, or `None` when it is missing, unreadable or not JSON.
 */
module ConfigFile {
  import opened Wrappers
  import opened Json

  const Hands: set<string> := {"Left", "Right"}
  const Gestures: set<string> :=
    {"Closed_Fist", "Open_Palm", "Pointing_Up", "Thumb_Down", "Thumb_Up", "Victory", "ILoveYou"}
  const SettingNames: set<string> := {"COMBINATION_MODE", "PRESS_RELEASE_WAIT_TIME", "ACTION_COOLDOWN"}

  /** The seven gestures of one hand, none bound to an action. */
  const NoActions: JsonValue := JObject(map[
    "Closed_Fist" := JList([]),
    "Open_Palm" := JList([]),
    "Pointing_Up" := JList([]),
    "Thumb_Down" := JList([]),
    "Thumb_Up" := JList([]),
    "Victory" := JList([]),
    "ILoveYou" := JList([])])

  const BaseActions: JsonValue := JObject(map["Left" := NoActions, "Right" := NoActions])

  const BaseSettings: JsonValue := JObject(map[
    "COMBINATION_MODE" := JBool(false),
    "PRESS_RELEASE_WAIT_TIME" := JFloat(0.1),
    "ACTION_COOLDOWN" := JFloat(1.0)])

  /** BASE_CONFIG_DICT: the document `create` writes. */
  const BaseConfig: JsonValue := JObject(map["Actions" := BaseActions, "Settings" := BaseSettings])

  // ---------------------------------------------------------------------------------------------
  // check(): the comparison against BASE_CONFIG_DICT, level by level, as the source walks it.
  // Every exception it can meet (AttributeError on a non-dict, ValidationError) makes it False.
  // ---------------------------------------------------------------------------------------------

  /** Python's `v < 0` on a value already known to have a number's type. */
  predicate IsNegative(v: JsonValue) {
    match v
    case JInt(i) => i < 0
    case JFloat(f) => f < 0.0
    case _ => false
  }

  /** One entry `config[key][sub]` against its default `base`. */
  predicate EntryOk(key: string, sub: string, base: JsonValue, v: JsonValue) {
    if !base.JObject? then
      && TypeOf(base) == TypeOf(v)
      && (key == "Settings" && (sub == "PRESS_RELEASE_WAIT_TIME" || sub == "ACTION_COOLDOWN") ==> !IsNegative(v))
    else
      && v.JObject?
      && v.fields.Keys == base.fields.Keys
      && forall t :: t in base.fields ==>
           && TypeOf(base.fields[t]) == TypeOf(v.fields[t])
           && (key == "Actions" ==> IsStringList(v.fields[t]))
  }

  /** One section `config[key]` against its default `base`. */
  predicate SectionOk(key: string, base: JsonValue, v: JsonValue) {
    && v.JObject?
    && base.JObject?
    && v.fields.Keys == base.fields.Keys
    && forall sub :: sub in base.fields ==> EntryOk(key, sub, base.fields[sub], v.fields[sub])
  }

  /** check() applied to a decoded document. */
  predicate Check(config: JsonValue) {
    && config.JObject?
    && config.fields.Keys == BaseConfig.fields.Keys
    && forall key :: key in BaseConfig.fields ==> SectionOk(key, BaseConfig.fields[key], config.fields[key])
  }

  // ---------------------------------------------------------------------------------------------
  // The same conditions written out per field: the reference shape a valid file has.
  // ---------------------------------------------------------------------------------------------

  /** Exactly the three settings, a bool and two non-negative floats. */
  predicate SettingsOk(s: JsonValue) {
    && s.JObject?
    && s.fields.Keys == SettingNames
    && s.fields["COMBINATION_MODE"].JBool?
    && s.fields["PRESS_RELEASE_WAIT_TIME"].JFloat? && s.fields["PRESS_RELEASE_WAIT_TIME"].f >= 0.0
    && s.fields["ACTION_COOLDOWN"].JFloat? && s.fields["ACTION_COOLDOWN"].f >= 0.0
  }

  /** Exactly the seven gestures, each bound to a list of strings. */
  predicate HandOk(h: JsonValue) {
    && h.JObject?
    && h.fields.Keys == Gestures
    && forall g :: g in h.fields ==> IsStringList(h.fields[g])
  }

  /** Exactly the two hands, each well formed. */
  predicate ActionsOk(a: JsonValue) {
    && a.JObject?
    && a.fields.Keys == Hands
    && HandOk(a.fields["Left"])
    && HandOk(a.fields["Right"])
  }

  predicate WellFormed(c: JsonValue) {
    && c.JObject?
    && c.fields.Keys == {"Actions", "Settings"}
    && ActionsOk(c.fields["Actions"])
    && SettingsOk(c.fields["Settings"])
  }

  lemma SettingsSection(v: JsonValue)
    ensures SectionOk("Settings", BaseSettings, v) <==> SettingsOk(v)
  {
    if SectionOk("Settings", BaseSettings, v) {
      assert EntryOk("Settings", "COMBINATION_MODE", JBool(false), v.fields["COMBINATION_MODE"]);
      assert EntryOk("Settings", "PRESS_RELEASE_WAIT_TIME", JFloat(0.1), v.fields["PRESS_RELEASE_WAIT_TIME"]);
      assert EntryOk("Settings", "ACTION_COOLDOWN", JFloat(1.0), v.fields["ACTION_COOLDOWN"]);
    }
  }

  lemma HandEntry(sub: string, v: JsonValue)
    ensures EntryOk("Actions", sub, NoActions, v) <==> HandOk(v)
  {
    if EntryOk("Actions", sub, NoActions, v) {
      forall g | g in v.fields ensures IsStringList(v.fields[g]) {
        assert g in NoActions.fields;
      }
    }
    if HandOk(v) {
      forall t | t in NoActions.fields
        ensures TypeOf(NoActions.fields[t]) == TypeOf(v.fields[t]) && IsStringList(v.fields[t])
      {
        assert IsStringList(v.fields[t]);
      }
    }
  }

  lemma ActionsSection(v: JsonValue)
    ensures SectionOk("Actions", BaseActions, v) <==> ActionsOk(v)
  {
    HandEntry("Left", if v.JObject? && "Left" in v.fields then v.fields["Left"] else JNull);
    HandEntry("Right", if v.JObject? && "Right" in v.fields then v.fields["Right"] else JNull);
    if ActionsOk(v) {
      forall sub | sub in BaseActions.fields ensures EntryOk("Actions", sub, BaseActions.fields[sub], v.fields[sub]) {
        assert sub == "Left" || sub == "Right";
      }
    }
  }

  lemma BaseConfigKeys()
    ensures BaseConfig.fields.Keys == {"Actions", "Settings"}
    ensures BaseConfig.fields["Actions"] == BaseActions && BaseConfig.fields["Settings"] == BaseSettings
  {
  }

  /** Check in terms of its two sections. */
  lemma CheckSections(c: JsonValue)
    ensures Check(c) <==>
      && c.JObject? && c.fields.Keys == {"Actions", "Settings"}
      && SectionOk("Actions", BaseActions, c.fields["Actions"])
      && SectionOk("Settings", BaseSettings, c.fields["Settings"])
  {
    BaseConfigKeys();
    if c.JObject? && c.fields.Keys == {"Actions", "Settings"}
      && SectionOk("Actions", BaseActions, c.fields["Actions"])
      && SectionOk("Settings", BaseSettings, c.fields["Settings"])
    {
      forall key | key in BaseConfig.fields ensures SectionOk(key, BaseConfig.fields[key], c.fields[key]) {
        assert key == "Actions" || key == "Settings";
      }
    }
    if Check(c) {
      assert "Actions" in BaseConfig.fields && "Settings" in BaseConfig.fields;
    }
  }

  /** check() accepts a document exactly when it has the shape of BASE_CONFIG_DICT field by field. */
  lemma CheckIsStructural(c: JsonValue)
    ensures Check(c) <==> WellFormed(c)
  {
    CheckSections(c);
    if c.JObject? && c.fields.Keys == {"Actions", "Settings"} {
      ActionsSection(c.fields["Actions"]);
      SettingsSection(c.fields["Settings"]);
    }
  }

  /** The default document passes check(), so `create` followed by `check` succeeds. */
  lemma BaseConfigChecks()
    ensures Check(BaseConfig)
  {
    BaseConfigWellFormed();
    CheckIsStructural(BaseConfig);
  }

  /** BASE_CONFIG_DICT has the shape: both hands bind the seven gestures to empty lists, and the settings are typed and not negative. */
  lemma BaseConfigWellFormed()
    ensures WellFormed(BaseConfig)
  {
    assert SettingsOk(BaseSettings);
    assert HandOk(NoActions) by {
      forall g | g in NoActions.fields ensures IsStringList(NoActions.fields[g]) {
        assert NoActions.fields[g] == JList([]);
      }
    }
    assert ActionsOk(BaseActions);
  }

  // ---------------------------------------------------------------------------------------------
  // The readers. The source catches KeyError and its own ValidationError but not the TypeError of
  // subscripting a non-dict nor the AttributeError of `.keys()` on one; the "as written" readers
  // keep those escapes, the others fall back to the default as the readers' comments promise.
  // ---------------------------------------------------------------------------------------------

  /** `v[key]` in Python: TypeError on a non-dict, KeyError (here `None`) on a missing key. */
  function Subscript(v: JsonValue, key: string): PyResult<Option<JsonValue>> {
    if !v.JObject? then Raised(TypeError)
    else if key !in v.fields then Returned(None)
    else Returned(Some(v.fields[key]))
  }

  /** retrieve_settings() as written. */
  function RetrieveSettingsAsWritten(file: Option<JsonValue>): PyResult<JsonValue> {
    match file
    case None => Returned(BaseSettings)
    case Some(config) =>
      match Subscript(config, "Settings")
      case Raised(e) => Raised(e)
      case Returned(None) => Returned(BaseSettings)
      case Returned(Some(settings)) =>
        if !settings.JObject? then Raised(AttributeError)
        else if SectionOk("Settings", BaseSettings, settings) then Returned(settings)
        else Returned(BaseSettings)
  }

  /** The stored settings section, when the document is a dict that has one. */
  function StoredSettings(file: Option<JsonValue>): Option<JsonValue> {
    if file.Some? && file.value.JObject? && "Settings" in file.value.fields
    then Some(file.value.fields["Settings"]) else None
  }

  /** retrieve_settings(): the stored settings when they validate, the defaults otherwise. */
  function RetrieveSettings(file: Option<JsonValue>): (s: JsonValue)
    ensures SettingsOk(s)
    ensures StoredSettings(file).Some? && SettingsOk(StoredSettings(file).value) ==> s == StoredSettings(file).value
    ensures !(StoredSettings(file).Some? && SettingsOk(StoredSettings(file).value)) ==> s == BaseSettings
  {
    assert SettingsOk(BaseSettings);
    match file
    case None => BaseSettings
    case Some(config) =>
      if !config.JObject? || "Settings" !in config.fields then BaseSettings
      else
        var settings := config.fields["Settings"];
        SettingsSection(settings);
        if SectionOk("Settings", BaseSettings, settings) then settings else BaseSettings
  }

  /** Wherever the as-written reader returns, it returns what the corrected one does. */
  lemma RetrieveSettingsAgrees(file: Option<JsonValue>)
    ensures RetrieveSettingsAsWritten(file).Returned? ==> RetrieveSettingsAsWritten(file).value == RetrieveSettings(file)
    ensures RetrieveSettingsAsWritten(file).Raised? <==>
              file.Some? && (!file.value.JObject? || (StoredSettings(file).Some? && !StoredSettings(file).value.JObject?))
  {
    if file.Some? && file.value.JObject? && "Settings" in file.value.fields {
      SettingsSection(file.value.fields["Settings"]);
    }
  }

  /** A file whose Settings is a number makes the as-written reader raise instead of defaulting. */
  lemma RetrieveSettingsRaisesOnNumber()
    ensures RetrieveSettingsAsWritten(Some(JObject(map["Settings" := JInt(5)]))) == Raised(AttributeError)
    ensures RetrieveSettings(Some(JObject(map["Settings" := JInt(5)]))) == BaseSettings
  {
  }

  /** The value at `config["Actions"][hand][gesture]`, when every step is a dict holding the key. */
  function StoredAction(file: Option<JsonValue>, hand: string, gesture: string): Option<JsonValue> {
    if file.Some? && file.value.JObject? && "Actions" in file.value.fields then
      var actions := file.value.fields["Actions"];
      if actions.JObject? && hand in actions.fields then
        var h := actions.fields[hand];
        if h.JObject? && gesture in h.fields then Some(h.fields[gesture]) else None
      else None
    else None
  }

  /** retrieve_action(hand, gesture) as written. */
  function RetrieveActionAsWritten(file: Option<JsonValue>, hand: string, gesture: string): PyResult<seq<string>> {
    match file
    case None => Returned([])
    case Some(config) =>
      match Subscript(config, "Actions")
      case Raised(e) => Raised(e)
      case Returned(None) => Returned([])
      case Returned(Some(actions)) =>
        match Subscript(actions, hand)
        case Raised(e) => Raised(e)
        case Returned(None) => Returned([])
        case Returned(Some(h)) =>
          match Subscript(h, gesture)
          case Raised(e) => Raised(e)
          case Returned(None) => Returned([])
          case Returned(Some(action)) =>
            if IsStringList(action) then Returned(Strings(action)) else Returned([])
  }

  /** retrieve_action(hand, gesture): the stored list when it is a list of strings, `[]` otherwise. */
  function RetrieveAction(file: Option<JsonValue>, hand: string, gesture: string): (r: seq<string>)
    ensures StoredAction(file, hand, gesture).Some? && IsStringList(StoredAction(file, hand, gesture).value) ==>
              StringList(r) == StoredAction(file, hand, gesture).value
    ensures !(StoredAction(file, hand, gesture).Some? && IsStringList(StoredAction(file, hand, gesture).value)) ==>
              r == []
  {
    match StoredAction(file, hand, gesture)
    case None => []
    case Some(action) => if IsStringList(action) then Strings(action) else []
  }

  /** Wherever the as-written reader returns, it returns what the corrected one does; it raises
      exactly when one of the three steps meets a value that is not a dict. */
  lemma RetrieveActionAgrees(file: Option<JsonValue>, hand: string, gesture: string)
    ensures RetrieveActionAsWritten(file, hand, gesture).Returned? ==>
              RetrieveActionAsWritten(file, hand, gesture).value == RetrieveAction(file, hand, gesture)
    ensures RetrieveActionAsWritten(file, hand, gesture).Raised? ==> StoredAction(file, hand, gesture).None?
    ensures RetrieveActionAsWritten(file, hand, gesture).Raised? <==>
              && file.Some?
              && (|| !file.value.JObject?
                  || ("Actions" in file.value.fields &&
                      var actions := file.value.fields["Actions"];
                      || !actions.JObject?
                      || (hand in actions.fields && !actions.fields[hand].JObject?)))
  {
  }

  /** A file whose Actions section is a list makes the as-written reader raise instead of returning `[]`. */
  lemma RetrieveActionRaisesOnList()
    ensures RetrieveActionAsWritten(Some(JObject(map["Actions" := JList([])])), "Left", "Victory") == Raised(TypeError)
    ensures RetrieveAction(Some(JObject(map["Actions" := JList([])])), "Left", "Victory") == []
  {
  }

  /** On a file that passes check(), every (hand, gesture) of the seven-by-two table reads back its list. */
  lemma RetrieveActionOnCheckedFile(c: JsonValue, hand: string, gesture: string)
    requires Check(c) && hand in Hands && gesture in Gestures
    ensures StoredAction(Some(c), hand, gesture).Some?
    ensures StringList(RetrieveAction(Some(c), hand, gesture)) == StoredAction(Some(c), hand, gesture).value
  {
    CheckIsStructural(c);
    assert hand == "Left" || hand == "Right";
  }

  // ---------------------------------------------------------------------------------------------
  // The updates save_action and save_settings make to the loaded document before rewriting it.
  // ---------------------------------------------------------------------------------------------

  /** The nested assignment `config["Actions"][hand][gesture] = action`, once the path to it exists. */
  function SetEntry(config: JsonValue, hand: string, gesture: string, action: JsonValue): JsonValue
    requires config.JObject? && "Actions" in config.fields
    requires config.fields["Actions"].JObject? && hand in config.fields["Actions"].fields
    requires config.fields["Actions"].fields[hand].JObject?
  {
    var actions := config.fields["Actions"];
    JObject(config.fields["Actions" := JObject(actions.fields[hand := JObject(actions.fields[hand].fields[gesture := action])])])
  }

  /** The assignment on a checked document; `None` is the KeyError of an unknown hand. */
  function WithAction(config: JsonValue, hand: string, gesture: string, action: JsonValue): (r: Option<JsonValue>)
    requires Check(config)
    ensures r.None? <==> hand !in Hands
  {
    CheckIsStructural(config);
    if hand !in config.fields["Actions"].fields then None else Some(SetEntry(config, hand, gesture, action))
  }

  /** The assignment reaches exactly its own entry. */
  lemma SetEntryReadsBack(config: JsonValue, hand: string, gesture: string, action: JsonValue, h: string, g: string)
    requires config.JObject? && "Actions" in config.fields
    requires config.fields["Actions"].JObject? && hand in config.fields["Actions"].fields
    requires config.fields["Actions"].fields[hand].JObject?
    ensures StoredAction(Some(SetEntry(config, hand, gesture, action)), hand, gesture) == Some(action)
    ensures (h, g) != (hand, gesture) ==>
              StoredAction(Some(SetEntry(config, hand, gesture, action)), h, g) == StoredAction(Some(config), h, g)
    ensures StoredSettings(Some(SetEntry(config, hand, gesture, action))) == StoredSettings(Some(config))
    ensures SetEntry(config, hand, gesture, action).fields.Keys == config.fields.Keys
  {
  }

  /** `config["Settings"] = settings`. */
  function WithSettings(config: JsonValue, settings: JsonValue): (r: JsonValue)
    requires config.JObject?
    ensures r.JObject? && r.fields.Keys == config.fields.Keys + {"Settings"}
    ensures r.fields["Settings"] == settings
    ensures forall k :: k in config.fields && k != "Settings" ==> r.fields[k] == config.fields[k]
  {
    JObject(config.fields["Settings" := settings])
  }

  /** save_action's update writes the one entry and leaves every other entry and the settings alone. */
  lemma SaveActionWritesOnlyItsEntry(config: JsonValue, hand: string, gesture: string, action: JsonValue,
                                     h: string, g: string)
    requires Check(config) && hand in Hands
    ensures StoredAction(Some(WithAction(config, hand, gesture, action).value), hand, gesture) == Some(action)
    ensures (h, g) != (hand, gesture) ==>
              StoredAction(Some(WithAction(config, hand, gesture, action).value), h, g) == StoredAction(Some(config), h, g)
    ensures StoredSettings(Some(WithAction(config, hand, gesture, action).value)) == StoredSettings(Some(config))
    ensures WithAction(config, hand, gesture, action).value.fields.Keys == config.fields.Keys
  {
    CheckIsStructural(config);
    SetEntryReadsBack(config, hand, gesture, action, h, g);
  }

  /** Saving a list of strings under one of the fourteen slots keeps the file valid and reads back. */
  lemma SaveActionRoundTrip(config: JsonValue, hand: string, gesture: string, keys: seq<string>)
    requires Check(config) && hand in Hands && gesture in Gestures
    ensures Check(WithAction(config, hand, gesture, StringList(keys)).value)
    ensures RetrieveAction(Some(WithAction(config, hand, gesture, StringList(keys)).value), hand, gesture) == keys
  {
    CheckIsStructural(config);
    SetEntryKeepsShape(config, hand, gesture, StringList(keys));
    var c' := WithAction(config, hand, gesture, StringList(keys)).value;
    CheckIsStructural(c');
    SetEntryListReadsBack(config, hand, gesture, keys);
  }

  /** A list of strings written by the assignment is read back by retrieve_action as the same keys. */
  lemma SetEntryListReadsBack(config: JsonValue, hand: string, gesture: string, keys: seq<string>)
    requires config.JObject? && "Actions" in config.fields
    requires config.fields["Actions"].JObject? && hand in config.fields["Actions"].fields
    requires config.fields["Actions"].fields[hand].JObject?
    ensures RetrieveAction(Some(SetEntry(config, hand, gesture, StringList(keys))), hand, gesture) == keys
  {
    SetEntryReadsBack(config, hand, gesture, StringList(keys), hand, gesture);
    StringsOfStringList(keys);
  }

  /** Replacing one of the seven lists of one hand by a list of strings keeps the document's shape. */
  lemma SetEntryKeepsShape(config: JsonValue, hand: string, gesture: string, action: JsonValue)
    requires WellFormed(config) && hand in Hands && gesture in Gestures && IsStringList(action)
    ensures WellFormed(SetEntry(config, hand, gesture, action))
  {
    var a := config.fields["Actions"];
    var h' := JObject(a.fields[hand].fields[gesture := action]);
    assert HandOk(h');
    assert hand == "Left" || hand == "Right";
    assert ActionsOk(JObject(a.fields[hand := h']));
  }

  /** A key outside the seven gestures, or a list holding a non-string, leaves a hand that is not well formed. */
  lemma SetEntryBreaksShape(config: JsonValue, hand: string, gesture: string, action: JsonValue)
    requires WellFormed(config) && hand in Hands
    requires gesture !in Gestures || !IsStringList(action)
    ensures !WellFormed(SetEntry(config, hand, gesture, action))
  {
    var h' := SetEntry(config, hand, gesture, action).fields["Actions"].fields[hand];
    assert gesture in h'.fields && h'.fields[gesture] == action;
    if gesture in Gestures {
      assert !HandOk(h');
    }
  }

  /** Saving under a gesture outside the seven, or a list holding a non-string, breaks check(). */
  lemma SaveActionCanBreakCheck(config: JsonValue, hand: string, gesture: string, action: JsonValue)
    requires Check(config) && hand in Hands
    requires gesture !in Gestures || !IsStringList(action)
    ensures !Check(WithAction(config, hand, gesture, action).value)
  {
    CheckIsStructural(config);
    SetEntryBreaksShape(config, hand, gesture, action);
    CheckIsStructural(WithAction(config, hand, gesture, action).value);
  }

  /** Saving settings of the right shape keeps the file valid and reads back unchanged. */
  lemma SaveSettingsRoundTrip(config: JsonValue, settings: JsonValue)
    requires Check(config) && SettingsOk(settings)
    ensures Check(WithSettings(config, settings))
    ensures RetrieveSettings(Some(WithSettings(config, settings))) == settings
    ensures WithSettings(config, settings).fields["Actions"] == config.fields["Actions"]
    ensures forall h, g :: StoredAction(Some(WithSettings(config, settings)), h, g) == StoredAction(Some(config), h, g)
  {
    CheckIsStructural(config);
    CheckIsStructural(WithSettings(config, settings));
  }

  /** The document save_action and save_settings load: the file if it passes check(), else the
      default document `create` has just written. */
  function Prepared(file: Option<JsonValue>): (c: JsonValue)
    ensures Check(c)
    ensures file.Some? && Check(file.value) ==> c == file.value
    ensures !(file.Some? && Check(file.value)) ==> c == BaseConfig
  {
    BaseConfigChecks();
    if file.Some? && Check(file.value) then file.value else BaseConfig
  }

  /**
   * The configuration file on disk. `writable` says whether the file system lets the program
   * create and rewrite it (an OSError on every write otherwise).
   */
  class ConfigStore {
    var file: Option<JsonValue>
    const writable: bool

    constructor (file: Option<JsonValue>, writable: bool)
      ensures this.file == file && this.writable == writable
    {
      this.file := file;
      this.writable := writable;
    }

    /** check() */
    predicate FileChecks()
      reads this
    {
      file.Some? && Check(file.value)
    }

    /** create(): writes the default document. */
    method Create() returns (ok: bool)
      modifies this
      ensures ok == writable
      ensures file == if writable then Some(BaseConfig) else old(file)
    {
      if !writable {
        return false;
      }
      file := Some(BaseConfig);
      ok := true;
    }

    /** save_action(hand, gesture, action) */
    method SaveAction(hand: string, gesture: string, action: JsonValue) returns (ok: bool)
      modifies this
      ensures !writable ==> !ok && file == old(file)
      ensures writable ==> ok == (hand in Hands)
      ensures writable && ok ==> file == WithAction(Prepared(old(file)), hand, gesture, action)
      ensures writable && !ok ==> file == Some(Prepared(old(file)))
    {
      var ready := FileChecks();
      if !ready {
        ready := Create();
      }
      if !ready || !writable {
        return false;
      }
      var config := file.value;
      var updated := WithAction(config, hand, gesture, action);
      if updated.None? {
        return false;
      }
      file := updated;
      ok := true;
    }

    /** save_settings(settings) */
    method SaveSettings(settings: JsonValue) returns (ok: bool)
      modifies this
      ensures ok == writable
      ensures !writable ==> file == old(file)
      ensures writable ==> file == Some(WithSettings(Prepared(old(file)), settings))
    {
      var ready := FileChecks();
      if !ready {
        ready := Create();
      }
      if !ready || !writable {
        return false;
      }
      var config := file.value;
      file := Some(WithSettings(config, settings));
      ok := true;
    }
  }
}
