/**
 * The note application's settings store as the plugin sees it: a map from
 * setting keys to stored values that the plugin reads and writes.
 */
module Host {
  import opened TabList

  /** The kinds of values the plugin stores: booleans, integers (and enum codes), strings, and the tab array. */
  datatype Value = BoolValue(b: bool) | IntValue(i: int) | StringValue(s: string) | TabsValue(tabs: seq<Tab>)

  /** The settings the plugin registers; `KeyName` gives each one's key string. */
  datatype SettingKey =
    | NoteTabsSetting
    | EnableDragAndDrop | ShowTodoCheckboxes | ShowBreadcrumbs | ShowNavigationButtons
    | PinEditedNotes | UnpinCompletedTodos | UnpinBehaviorKey | LayoutModeKey
    | TabHeight | MinTabWidth | MaxTabWidth | BreadcrumbsMinWidth | BreadcrumbsMaxWidth
    | FontFamily | FontSize | MainBackground | HoverBackground | ActiveBackground
    | BreadcrumbsBackground | MainForeground | ActiveForeground | DividerColor

  function KeyName(k: SettingKey): string
  {
    match k
    case NoteTabsSetting => "noteTabs"
    case EnableDragAndDrop => "enableDragAndDrop"
    case ShowTodoCheckboxes => "showTodoCheckboxes"
    case ShowBreadcrumbs => "showBreadcrumbs"
    case ShowNavigationButtons => "showNavigationButtons"
    case PinEditedNotes => "pinEditedNotes"
    case UnpinCompletedTodos => "unpinCompletedTodos"
    case UnpinBehaviorKey => "unpinBehavior"
    case LayoutModeKey => "layoutMode"
    case TabHeight => "tabHeight"
    case MinTabWidth => "minTabWidth"
    case MaxTabWidth => "maxTabWidth"
    case BreadcrumbsMinWidth => "breadcrumbsMinWidth"
    case BreadcrumbsMaxWidth => "breadcrumbsMaxWidth"
    case FontFamily => "fontFamily"
    case FontSize => "fontSize"
    case MainBackground => "mainBackground"
    case HoverBackground => "hoverBackground"
    case ActiveBackground => "activeBackground"
    case BreadcrumbsBackground => "breadcrumbsBackground"
    case MainForeground => "mainForeground"
    case ActiveForeground => "activeForeground"
    case DividerColor => "dividerColor"
  }

  /** A second write to a key replaces the first. */
  lemma WriteTwice(values: map<SettingKey, Value>, key: SettingKey, a: Value, b: Value)
    ensures values[key := a][key := b] == values[key := b]
  {
    var l := values[key := a][key := b];
    var r := values[key := b];
    assert l.Keys == r.Keys;
    forall k | k in l ensures l[k] == r[k] {
    }
  }

  /** `joplin.settings`: every stored setting value, by key. */
  class SettingStore {
    var values: map<SettingKey, Value>

    constructor (values: map<SettingKey, Value>)
      ensures this.values == values
    {
      this.values := values;
    }

    /** `joplin.settings.setValue(key, v)`. */
    method SetValue(key: SettingKey, v: Value)
      modifies this
      ensures values == old(values)[key := v]
    {
      values := values[key := v];
    }
  }
}
