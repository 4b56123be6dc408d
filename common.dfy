/** Small shared vocabulary: optional values and JavaScript truthiness. */
module Common {

  /** A value that may be missing (`undefined` or `null` in the plugin's code). */
  datatype Option<+T> = None | Some(value: T)

  /** JavaScript truthiness of an optional string: missing and "" are both falsy. */
  predicate Truthy(s: Option<string>)
  {
    s.Some? && s.value != ""
  }
}
