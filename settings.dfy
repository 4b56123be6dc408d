/**
 * src/settings.ts: the plugin's options, their initial values, and the
 * partial re-read that refreshes only the options a change event names.
 */
module Settings {
  import opened Common
  import opened TabList
  import opened Host

  // ---------------------------------------------------------------------
  // `SettingDefaults`: the sentinel and the fallbacks used in its place

  const DefaultSentinel: string := "default"
  const FontFamilyFallback: string := "Roboto"
  const FontSizeFallback: string := "var(--joplin-font-size)"
  const BackgroundFallback: string := "var(--joplin-background-color3)"
  const HoverBackgroundFallback: string := "var(--joplin-background-color-hover3)"
  const ForegroundFallback: string := "var(--joplin-color-faded)"
  const ActiveBackgroundFallback: string := "var(--joplin-background-color)"
  const ActiveForegroundFallback: string := "var(--joplin-color)"
  const DividerColorFallback: string := "var(--joplin-divider-color)"

  /** `UnpinBehavior`: Keep = 0, LastActive = 1, Adjacent = 2. */
  datatype UnpinBehavior = Keep | LastActive | Adjacent

  function UnpinCode(b: UnpinBehavior): int
  {
    match b
    case Keep => 0
    case LastActive => 1
    case Adjacent => 2
  }

  /** `LayoutMode`: Auto = 0, Horizontal = 1, Vertical = 2. */
  datatype LayoutMode = Auto | Horizontal | Vertical

  function LayoutCode(m: LayoutMode): int
  {
    match m
    case Auto => 0
    case Horizontal => 1
    case Vertical => 2
  }

  /** A settings change notification: the keys of the settings that changed. */
  datatype ChangeEvent = ChangeEvent(keys: set<SettingKey>)

  // ---------------------------------------------------------------------
  // The `/default/i` test

  /** Case folding of the regular expression's `i` flag; only ASCII letters can fold onto the letters of "default". */
  function Lower(c: char): char
  {
    if 'A' <= c <= 'Z' then (c as int + 32) as char else c
  }

  /** The seven characters from `i` spell "default", ignoring case. */
  predicate DefaultAt(s: string, i: nat)
    requires i + 7 <= |s|
  {
    Lower(s[i]) == 'd' && Lower(s[i + 1]) == 'e' && Lower(s[i + 2]) == 'f' && Lower(s[i + 3]) == 'a' &&
    Lower(s[i + 4]) == 'u' && Lower(s[i + 5]) == 'l' && Lower(s[i + 6]) == 't'
  }

  /** "default" occurs, ignoring case, in `s` at some index `i` or later. */
  predicate MatchesFrom(s: string, i: nat)
    decreases |s| - i
  {
    i + 7 <= |s| && (DefaultAt(s, i) || MatchesFrom(s, i + 1))
  }

  /** `s.match(/default/i)` finds something. */
  predicate MatchesDefault(s: string)
  {
    MatchesFrom(s, 0)
  }

  /** The scan finds "default" exactly when it occurs, in any case, at some index from `i` on. */
  lemma {:induction false} MatchesFromSpec(s: string, i: nat)
    ensures MatchesFrom(s, i) <==> exists j :: i <= j && j + 7 <= |s| && DefaultAt(s, j)
    decreases |s| - i
  {
    if i + 7 <= |s| {
      MatchesFromSpec(s, i + 1);
      if exists j :: i <= j && j + 7 <= |s| && DefaultAt(s, j) {
        var j :| i <= j && j + 7 <= |s| && DefaultAt(s, j);
        assert j == i || (i + 1 <= j && j + 7 <= |s| && DefaultAt(s, j));
      }
    }
  }

  /** A string without the letter f (in either case) cannot match. */
  lemma NoMatchWithoutF(s: string)
    requires 'f' !in s && 'F' !in s
    ensures !MatchesDefault(s)
  {
    MatchesFromSpec(s, 0);
    forall i | 0 <= i && i + 7 <= |s|
      ensures !DefaultAt(s, i)
    {
      assert s[i + 2] in s;
    }
  }

  /** A string without the letter u (in either case) cannot match. */
  lemma NoMatchWithoutU(s: string)
    requires 'u' !in s && 'U' !in s
    ensures !MatchesDefault(s)
  {
    MatchesFromSpec(s, 0);
    forall i | 0 <= i && i + 7 <= |s|
      ensures !DefaultAt(s, i)
    {
      assert s[i + 4] in s;
    }
  }

  /** The test is a case-insensitive substring test, not an equality test. */
  lemma MatchesDefaultExamples()
    ensures MatchesDefault(DefaultSentinel)
    ensures MatchesDefault("DEFAULT") && MatchesDefault("my-Default-font")
    ensures !MatchesDefault("defaul")
  {
    assert DefaultAt(DefaultSentinel, 0);
    assert DefaultAt("DEFAULT", 0);
    assert DefaultAt("my-Default-font", 3);
    MatchesFromSpec("my-Default-font", 0);
  }

  /** No fallback constant matches the test itself (one lemma per constant keeps each proof small). */
  lemma FontFamilyFallbackNoMatch() ensures !MatchesDefault(FontFamilyFallback) { NoMatchWithoutF(FontFamilyFallback); }
  lemma FontSizeFallbackNoMatch() ensures !MatchesDefault(FontSizeFallback) { NoMatchWithoutU(FontSizeFallback); }
  lemma BackgroundFallbackNoMatch() ensures !MatchesDefault(BackgroundFallback) { NoMatchWithoutF(BackgroundFallback); }
  lemma HoverBackgroundFallbackNoMatch() ensures !MatchesDefault(HoverBackgroundFallback) { NoMatchWithoutF(HoverBackgroundFallback); }
  lemma ForegroundFallbackNoMatch() ensures !MatchesDefault(ForegroundFallback) { NoMatchWithoutU(ForegroundFallback); }
  lemma ActiveBackgroundFallbackNoMatch() ensures !MatchesDefault(ActiveBackgroundFallback) { NoMatchWithoutF(ActiveBackgroundFallback); }
  lemma ActiveForegroundFallbackNoMatch() ensures !MatchesDefault(ActiveForegroundFallback) { NoMatchWithoutF(ActiveForegroundFallback); }
  lemma DividerColorFallbackNoMatch() ensures !MatchesDefault(DividerColorFallback) { NoMatchWithoutF(DividerColorFallback); }

  lemma FallbacksDoNotMatch()
    ensures !MatchesDefault(FontFamilyFallback) && !MatchesDefault(FontSizeFallback)
    ensures !MatchesDefault(BackgroundFallback) && !MatchesDefault(HoverBackgroundFallback)
    ensures !MatchesDefault(ForegroundFallback) && !MatchesDefault(ActiveBackgroundFallback)
    ensures !MatchesDefault(ActiveForegroundFallback) && !MatchesDefault(DividerColorFallback)
  {
    FontFamilyFallbackNoMatch();
    FontSizeFallbackNoMatch();
    BackgroundFallbackNoMatch();
    HoverBackgroundFallbackNoMatch();
    ForegroundFallbackNoMatch();
    ActiveBackgroundFallbackNoMatch();
    ActiveForegroundFallbackNoMatch();
    DividerColorFallbackNoMatch();
  }

  // ---------------------------------------------------------------------
  // `getOrDefault`

  /** Whether `read` fetches the setting: always without an event, otherwise only when the event names it. */
  predicate ShouldRead(event: Option<ChangeEvent>, setting: SettingKey)
  {
    event.None? || setting in event.value.keys
  }

  /** A stored value after the fallback rule: a string matching `/default/i` becomes the (truthy) fallback. */
  function Resolve(stored: Value, defaultValue: Option<string>): (r: Value)
    requires Truthy(defaultValue) ==> stored.StringValue?
    ensures Truthy(defaultValue) && MatchesDefault(stored.s) ==> r == StringValue(defaultValue.value)
    ensures !Truthy(defaultValue) || !MatchesDefault(stored.s) ==> r == stored
  {
    if Truthy(defaultValue) && MatchesDefault(stored.s) then StringValue(defaultValue.value) else stored
  }

  /** Once resolved against a fallback that does not match, a string setting never matches. */
  lemma ResolveClearsSentinel(stored: Value, fallback: string)
    requires stored.StringValue? && fallback != "" && !MatchesDefault(fallback)
    ensures Resolve(stored, Some(fallback)).StringValue?
    ensures !MatchesDefault(Resolve(stored, Some(fallback)).s)
  {
  }

  /**
   * The new value of one option: the stored value (after the fallback rule)
   * when it is re-read, the previous value otherwise.
   */
  function GetOrDefault(event: Option<ChangeEvent>, localVar: Value, setting: SettingKey,
                        defaultValue: Option<string>, values: map<SettingKey, Value>): (r: Value)
    requires ShouldRead(event, setting) ==> setting in values
    requires ShouldRead(event, setting) && Truthy(defaultValue) ==> values[setting].StringValue?
    ensures !ShouldRead(event, setting) ==> r == localVar
    ensures ShouldRead(event, setting) && Truthy(defaultValue) && MatchesDefault(values[setting].s) ==>
      r == StringValue(defaultValue.value)
    ensures ShouldRead(event, setting) && (!Truthy(defaultValue) || !MatchesDefault(values[setting].s)) ==>
      r == values[setting]
  {
    if ShouldRead(event, setting) then Resolve(values[setting], defaultValue) else localVar
  }

  // ---------------------------------------------------------------------
  // The options

  /** Every option `read` refreshes, by its field name. */
  datatype Options = Options(
    enableDragAndDrop: bool, showTodoCheckboxes: bool, showBreadcrumbs: bool, showNavigationButtons: bool,
    pinEditedNotes: bool, unpinCompletedTodos: bool, unpinBehavior: int, layoutMode: int,
    tabHeight: int, minTabWidth: int, maxTabWidth: int, breadcrumbsMinWidth: int, breadcrumbsMaxWidth: int,
    fontFamily: string, fontSize: string, background: string, hoverBackground: string, actBackground: string,
    breadcrumbsBackground: string, foreground: string, actForeground: string, dividerColor: string)

  /** The field initialisers, in force until the first read. */
  const Initial: Options := Options(
    true, false, false, false, false, false, 0, 0,
    35, 50, 150, 10, 100,
    DefaultSentinel, DefaultSentinel, DefaultSentinel, DefaultSentinel, DefaultSentinel,
    DefaultSentinel, DefaultSentinel, DefaultSentinel, DefaultSentinel)

  /** The option that a setting key feeds, or nothing for the tab array. */
  function FieldValue(o: Options, key: SettingKey): Option<Value>
  {
    match key
    case NoteTabsSetting => None
    case EnableDragAndDrop => Some(BoolValue(o.enableDragAndDrop))
    case ShowTodoCheckboxes => Some(BoolValue(o.showTodoCheckboxes))
    case ShowBreadcrumbs => Some(BoolValue(o.showBreadcrumbs))
    case ShowNavigationButtons => Some(BoolValue(o.showNavigationButtons))
    case PinEditedNotes => Some(BoolValue(o.pinEditedNotes))
    case UnpinCompletedTodos => Some(BoolValue(o.unpinCompletedTodos))
    case UnpinBehaviorKey => Some(IntValue(o.unpinBehavior))
    case LayoutModeKey => Some(IntValue(o.layoutMode))
    case TabHeight => Some(IntValue(o.tabHeight))
    case MinTabWidth => Some(IntValue(o.minTabWidth))
    case MaxTabWidth => Some(IntValue(o.maxTabWidth))
    case BreadcrumbsMinWidth => Some(IntValue(o.breadcrumbsMinWidth))
    case BreadcrumbsMaxWidth => Some(IntValue(o.breadcrumbsMaxWidth))
    case FontFamily => Some(StringValue(o.fontFamily))
    case FontSize => Some(StringValue(o.fontSize))
    case MainBackground => Some(StringValue(o.background))
    case HoverBackground => Some(StringValue(o.hoverBackground))
    case ActiveBackground => Some(StringValue(o.actBackground))
    case BreadcrumbsBackground => Some(StringValue(o.breadcrumbsBackground))
    case MainForeground => Some(StringValue(o.foreground))
    case ActiveForeground => Some(StringValue(o.actForeground))
    case DividerColor => Some(StringValue(o.dividerColor))
  }

  /** The fallback `read` passes for a setting; only the style strings have one. */
  function FallbackOf(key: SettingKey): Option<string>
  {
    match key
    case FontFamily => Some(FontFamilyFallback)
    case FontSize => Some(FontSizeFallback)
    case MainBackground => Some(BackgroundFallback)
    case HoverBackground => Some(HoverBackgroundFallback)
    case ActiveBackground => Some(ActiveBackgroundFallback)
    case BreadcrumbsBackground => Some(ActiveBackgroundFallback)
    case MainForeground => Some(ForegroundFallback)
    case ActiveForeground => Some(ActiveForegroundFallback)
    case DividerColor => Some(DividerColorFallback)
    case _ => None
  }

  /** Every fallback is truthy and does not itself match `/default/i`. */
  lemma FallbackOfNoMatch(key: SettingKey)
    requires FallbackOf(key).Some?
    ensures FallbackOf(key).value != "" && !MatchesDefault(FallbackOf(key).value)
  {
    match key
    case FontFamily => FontFamilyFallbackNoMatch();
    case FontSize => FontSizeFallbackNoMatch();
    case MainBackground => BackgroundFallbackNoMatch();
    case HoverBackground => HoverBackgroundFallbackNoMatch();
    case ActiveBackground => ActiveBackgroundFallbackNoMatch();
    case BreadcrumbsBackground => ActiveBackgroundFallbackNoMatch();
    case MainForeground => ForegroundFallbackNoMatch();
    case ActiveForeground => ActiveForegroundFallbackNoMatch();
    case DividerColor => DividerColorFallbackNoMatch();
  }

  /** The type a setting is registered with, as a test on stored values. */
  predicate HasRegisteredType(key: SettingKey, v: Value)
  {
    match key
    case NoteTabsSetting => v.TabsValue?
    case EnableDragAndDrop | ShowTodoCheckboxes | ShowBreadcrumbs | ShowNavigationButtons
       | PinEditedNotes | UnpinCompletedTodos => v.BoolValue?
    case UnpinBehaviorKey | LayoutModeKey | TabHeight | MinTabWidth | MaxTabWidth
       | BreadcrumbsMinWidth | BreadcrumbsMaxWidth => v.IntValue?
    case _ => v.StringValue?
  }

  /** The store after registration: every setting exists with the type it was registered with. */
  predicate Registered(values: map<SettingKey, Value>)
  {
    && (NoteTabsSetting in values && HasRegisteredType(NoteTabsSetting, values[NoteTabsSetting]))
    && (EnableDragAndDrop in values && HasRegisteredType(EnableDragAndDrop, values[EnableDragAndDrop]))
    && (ShowTodoCheckboxes in values && HasRegisteredType(ShowTodoCheckboxes, values[ShowTodoCheckboxes]))
    && (ShowBreadcrumbs in values && HasRegisteredType(ShowBreadcrumbs, values[ShowBreadcrumbs]))
    && (ShowNavigationButtons in values && HasRegisteredType(ShowNavigationButtons, values[ShowNavigationButtons]))
    && (PinEditedNotes in values && HasRegisteredType(PinEditedNotes, values[PinEditedNotes]))
    && (UnpinCompletedTodos in values && HasRegisteredType(UnpinCompletedTodos, values[UnpinCompletedTodos]))
    && (UnpinBehaviorKey in values && HasRegisteredType(UnpinBehaviorKey, values[UnpinBehaviorKey]))
    && (LayoutModeKey in values && HasRegisteredType(LayoutModeKey, values[LayoutModeKey]))
    && (TabHeight in values && HasRegisteredType(TabHeight, values[TabHeight]))
    && (MinTabWidth in values && HasRegisteredType(MinTabWidth, values[MinTabWidth]))
    && (MaxTabWidth in values && HasRegisteredType(MaxTabWidth, values[MaxTabWidth]))
    && (BreadcrumbsMinWidth in values && HasRegisteredType(BreadcrumbsMinWidth, values[BreadcrumbsMinWidth]))
    && (BreadcrumbsMaxWidth in values && HasRegisteredType(BreadcrumbsMaxWidth, values[BreadcrumbsMaxWidth]))
    && (FontFamily in values && HasRegisteredType(FontFamily, values[FontFamily]))
    && (FontSize in values && HasRegisteredType(FontSize, values[FontSize]))
    && (MainBackground in values && HasRegisteredType(MainBackground, values[MainBackground]))
    && (HoverBackground in values && HasRegisteredType(HoverBackground, values[HoverBackground]))
    && (ActiveBackground in values && HasRegisteredType(ActiveBackground, values[ActiveBackground]))
    && (BreadcrumbsBackground in values && HasRegisteredType(BreadcrumbsBackground, values[BreadcrumbsBackground]))
    && (MainForeground in values && HasRegisteredType(MainForeground, values[MainForeground]))
    && (ActiveForeground in values && HasRegisteredType(ActiveForeground, values[ActiveForeground]))
    && (DividerColor in values && HasRegisteredType(DividerColor, values[DividerColor]))
  }

  /** `getOrDefault` on a boolean option. */
  function ReadBool(event: Option<ChangeEvent>, current: bool, key: SettingKey, values: map<SettingKey, Value>): (r: bool)
    requires ShouldRead(event, key) ==> key in values && values[key].BoolValue?
    ensures r == if ShouldRead(event, key) then values[key].b else current
  {
    GetOrDefault(event, BoolValue(current), key, None, values).b
  }

  /** `getOrDefault` on an integer or enum option. */
  function ReadInt(event: Option<ChangeEvent>, current: int, key: SettingKey, values: map<SettingKey, Value>): (r: int)
    requires ShouldRead(event, key) ==> key in values && values[key].IntValue?
    ensures r == if ShouldRead(event, key) then values[key].i else current
  {
    GetOrDefault(event, IntValue(current), key, None, values).i
  }

  /** `getOrDefault` on a style option with its fallback. */
  function ReadString(event: Option<ChangeEvent>, current: string, key: SettingKey, fallback: string,
                      values: map<SettingKey, Value>): (r: string)
    requires ShouldRead(event, key) ==> key in values && values[key].StringValue?
    ensures !ShouldRead(event, key) ==> r == current
    ensures ShouldRead(event, key) ==> StringValue(r) == Resolve(values[key], Some(fallback))
  {
    GetOrDefault(event, StringValue(current), key, Some(fallback), values).s
  }

  /** The options after `read(event)`, one `getOrDefault` per option. */
  function ReadAll(event: Option<ChangeEvent>, o: Options, values: map<SettingKey, Value>): Options
    requires Registered(values)
  {
    Options(
      ReadBool(event, o.enableDragAndDrop, EnableDragAndDrop, values),
      ReadBool(event, o.showTodoCheckboxes, ShowTodoCheckboxes, values),
      ReadBool(event, o.showBreadcrumbs, ShowBreadcrumbs, values),
      ReadBool(event, o.showNavigationButtons, ShowNavigationButtons, values),
      ReadBool(event, o.pinEditedNotes, PinEditedNotes, values),
      ReadBool(event, o.unpinCompletedTodos, UnpinCompletedTodos, values),
      ReadInt(event, o.unpinBehavior, UnpinBehaviorKey, values),
      ReadInt(event, o.layoutMode, LayoutModeKey, values),
      ReadInt(event, o.tabHeight, TabHeight, values),
      ReadInt(event, o.minTabWidth, MinTabWidth, values),
      ReadInt(event, o.maxTabWidth, MaxTabWidth, values),
      ReadInt(event, o.breadcrumbsMinWidth, BreadcrumbsMinWidth, values),
      ReadInt(event, o.breadcrumbsMaxWidth, BreadcrumbsMaxWidth, values),
      ReadString(event, o.fontFamily, FontFamily, FontFamilyFallback, values),
      ReadString(event, o.fontSize, FontSize, FontSizeFallback, values),
      ReadString(event, o.background, MainBackground, BackgroundFallback, values),
      ReadString(event, o.hoverBackground, HoverBackground, HoverBackgroundFallback, values),
      ReadString(event, o.actBackground, ActiveBackground, ActiveBackgroundFallback, values),
      ReadString(event, o.breadcrumbsBackground, BreadcrumbsBackground, ActiveBackgroundFallback, values),
      ReadString(event, o.foreground, MainForeground, ForegroundFallback, values),
      ReadString(event, o.actForeground, ActiveForeground, ActiveForegroundFallback, values),
      ReadString(event, o.dividerColor, DividerColor, DividerColorFallback, values))
  }

  // ---------------------------------------------------------------------
  // What a read does to each option

  /** The settings registered as booleans. */
  predicate IsFlagKey(key: SettingKey)
  {
    key.EnableDragAndDrop? || key.ShowTodoCheckboxes? || key.ShowBreadcrumbs? || key.ShowNavigationButtons?
    || key.PinEditedNotes? || key.UnpinCompletedTodos?
  }

  /** The settings registered as numbers. */
  predicate IsSizeKey(key: SettingKey)
  {
    key.UnpinBehaviorKey? || key.LayoutModeKey? || key.TabHeight? || key.MinTabWidth? || key.MaxTabWidth?
    || key.BreadcrumbsMinWidth? || key.BreadcrumbsMaxWidth?
  }

  /**
   * The new value of the option a key feeds: the stored value after the
   * fallback rule when the read covers the key, the previous value otherwise.
   */
  function FieldAfterRead(event: Option<ChangeEvent>, o: Options, values: map<SettingKey, Value>, key: SettingKey): Option<Value>
    requires Registered(values)
  {
    if FieldValue(o, key).Some? && ShouldRead(event, key) then Some(Resolve(values[key], FallbackOf(key)))
    else FieldValue(o, key)
  }

  /**
   * Every option the event names (all of them without an event) takes the
   * stored value after the fallback rule; every other option keeps its
   * previous value exactly.
   */
  lemma ReadAllField(event: Option<ChangeEvent>, o: Options, values: map<SettingKey, Value>, key: SettingKey)
    requires Registered(values)
    ensures FieldValue(ReadAll(event, o, values), key) == FieldAfterRead(event, o, values, key)
  {
    if IsFlagKey(key) {
      ReadFlagField(event, o, values, key);
    } else if IsSizeKey(key) {
      ReadSizeField(event, o, values, key);
    } else if FallbackOf(key).Some? {
      ReadStyleField(event, o, values, key);
    } else {
      assert key.NoteTabsSetting?;
    }
  }

  /** A boolean option is re-read as stored, or kept. */
  lemma ReadFlagField(event: Option<ChangeEvent>, o: Options, values: map<SettingKey, Value>, key: SettingKey)
    requires Registered(values) && IsFlagKey(key)
    ensures FieldValue(ReadAll(event, o, values), key) == FieldAfterRead(event, o, values, key)
    ensures FieldAfterRead(event, o, values, key) == if ShouldRead(event, key) then Some(values[key]) else FieldValue(o, key)
  {
  }

  /** A numeric option is re-read as stored, or kept. */
  lemma ReadSizeField(event: Option<ChangeEvent>, o: Options, values: map<SettingKey, Value>, key: SettingKey)
    requires Registered(values) && IsSizeKey(key)
    ensures FieldValue(ReadAll(event, o, values), key) == FieldAfterRead(event, o, values, key)
    ensures FieldAfterRead(event, o, values, key) == if ShouldRead(event, key) then Some(values[key]) else FieldValue(o, key)
  {
  }

  /** A style option is re-read through its fallback, or kept. */
  lemma ReadStyleField(event: Option<ChangeEvent>, o: Options, values: map<SettingKey, Value>, key: SettingKey)
    requires Registered(values) && FallbackOf(key).Some?
    ensures FieldValue(ReadAll(event, o, values), key) == FieldAfterRead(event, o, values, key)
    ensures FieldAfterRead(event, o, values, key) ==
      if ShouldRead(event, key) then Some(Resolve(values[key], FallbackOf(key))) else FieldValue(o, key)
  {
  }

  /** With a change event, every option whose key the event does not name is left as it was. */
  lemma ReadKeepsUnnamed(event: ChangeEvent, o: Options, values: map<SettingKey, Value>)
    requires Registered(values)
    ensures forall key: SettingKey :: key !in event.keys ==> FieldValue(ReadAll(Some(event), o, values), key) == FieldValue(o, key)
  {
    forall key | key !in event.keys
      ensures FieldValue(ReadAll(Some(event), o, values), key) == FieldValue(o, key)
    {
      ReadAllField(Some(event), o, values, key);
    }
  }

  /** An event naming only `tabHeight` updates `tabHeight` and leaves every other option identical. */
  lemma ReadTabHeightOnly(o: Options, values: map<SettingKey, Value>)
    requires Registered(values)
    ensures ReadAll(Some(ChangeEvent({TabHeight})), o, values) == o.(tabHeight := values[TabHeight].i)
  {
  }

  /** Non-style options have no fallback: a full read copies them from the store as they are. */
  lemma FullReadCopiesNonStyle(o: Options, values: map<SettingKey, Value>, key: SettingKey)
    requires Registered(values) && FieldValue(o, key).Some? && FallbackOf(key).None?
    ensures FieldValue(ReadAll(None, o, values), key) == Some(values[key])
  {
    ReadAllField(None, o, values, key);
  }

  /** After a full read no style option holds a value matching `/default/i`. */
  lemma FullReadClearsSentinel(o: Options, values: map<SettingKey, Value>, key: SettingKey)
    requires Registered(values) && FallbackOf(key).Some?
    ensures FieldValue(ReadAll(None, o, values), key).Some?
    ensures FieldValue(ReadAll(None, o, values), key).value.StringValue?
    ensures !MatchesDefault(FieldValue(ReadAll(None, o, values), key).value.s)
  {
    ReadStyleField(None, o, values, key);
    FallbackOfNoMatch(key);
    ResolveClearsSentinel(values[key], FallbackOf(key).value);
  }

  /** A stored "default" for the breadcrumbs background reads as the active background fallback. */
  lemma BreadcrumbsBackgroundFallback(o: Options, values: map<SettingKey, Value>)
    requires Registered(values) && values[BreadcrumbsBackground] == StringValue(DefaultSentinel)
    ensures ReadAll(None, o, values).breadcrumbsBackground == ActiveBackgroundFallback
  {
    MatchesDefaultExamples();
  }

  // ---------------------------------------------------------------------
  // The settings object

  class Settings {
    /** The host settings the options are read from. */
    const settings: SettingStore
    /** The tab array kept in the private `noteTabs` setting. */
    var noteTabs: seq<Tab>
    /** The private option fields, one record field per option. */
    var options: Options

    /** The field initialisers: an empty tab array and the initial option values. */
    constructor (settings: SettingStore)
      ensures this.settings == settings
      ensures noteTabs == [] && options == Initial
    {
      this.settings := settings;
      noteTabs := [];
      options := Initial;
    }

    /** The reads `register` does once the settings exist: the tab array, then every option. */
    method Register()
      requires Registered(settings.values)
      modifies this
      ensures noteTabs == settings.values[NoteTabsSetting].tabs
      ensures options == ReadAll(None, old(options), settings.values)
    {
      noteTabs := settings.values[NoteTabsSetting].tabs;
      Read(None);
    }

    /**
     * Updates the options: every option the event names (all of them
     * without an event) takes its stored value after the fallback rule,
     * every other option keeps its value.
     */
    method Read(event: Option<ChangeEvent>)
      requires Registered(settings.values)
      modifies this
      ensures noteTabs == old(noteTabs)
      ensures options == ReadAll(event, old(options), settings.values)
    {
      options := ReadAll(event, options, settings.values);
    }

    /** Writes the tab array to the `noteTabs` setting. */
    method StoreTabs()
      modifies settings
      ensures settings.values == old(settings.values)[NoteTabsSetting := TabsValue(noteTabs)]
    {
      settings.SetValue(NoteTabsSetting, TabsValue(noteTabs));
    }

    /** Empties the tab array, then persists it: afterwards the stored `noteTabs` is empty too. */
    method ClearTabs()
      modifies this, settings
      ensures noteTabs == [] && options == old(options)
      ensures settings.values == old(settings.values)[NoteTabsSetting := TabsValue([])]
    {
      noteTabs := [];
      StoreTabs();
    }

    /** Whether the unpin behavior setting is `behavior`. */
    function HasUnpinBehavior(behavior: UnpinBehavior): (r: bool)
      reads this
      ensures r <==> options.unpinBehavior == UnpinCode(behavior)
    {
      options.unpinBehavior == UnpinCode(behavior)
    }

    /** Whether the layout mode setting is `mode`. */
    function HasLayoutMode(mode: LayoutMode): (r: bool)
      reads this
      ensures r <==> options.layoutMode == LayoutCode(mode)
    {
      options.layoutMode == LayoutCode(mode)
    }
  }

  /** At most one unpin behavior and at most one layout mode hold at a time, and the initial ones are Keep and Auto. */
  lemma ModeQueriesExclusive(s: Settings, a: UnpinBehavior, b: UnpinBehavior, m: LayoutMode, n: LayoutMode)
    ensures s.HasUnpinBehavior(a) && s.HasUnpinBehavior(b) ==> a == b
    ensures s.HasLayoutMode(m) && s.HasLayoutMode(n) ==> m == n
    ensures Initial.unpinBehavior == UnpinCode(Keep) && Initial.layoutMode == LayoutCode(Auto)
  {
  }
}
