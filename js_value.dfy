/**
 * A property read from a parsed JSON value (`sub.id`, `body?.url`), as far as
 * the frontend and the worker inspect it: missing, a string, or some other
 * value that JavaScript counts as truthy or falsy.
 */
module JsValue {

  datatype Field = Missing | Text(s: string) | NonText(truthy: bool)

  /** JavaScript truthiness of the property: `undefined` and `""` are falsy. */
  predicate Truthy(f: Field) {
    match f
    case Missing => false
    case Text(s) => s != []
    case NonText(t) => t
  }
}
