/** Plain JavaScript objects used as dictionaries (`{}` then `acc[key]`). */
module JsObject {

  /** Property names every `{}` already answers through `Object.prototype`; reading
      `acc[name]` for one of these yields a function or the prototype itself, which is
      truthy, even though the key was never stored. */
  const InheritedKeys: set<string> := {
    "constructor", "hasOwnProperty", "isPrototypeOf", "propertyIsEnumerable",
    "toLocaleString", "toString", "valueOf", "__proto__",
    "__defineGetter__", "__defineSetter__", "__lookupGetter__", "__lookupSetter__"
  }
}
