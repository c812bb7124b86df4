/** Value types shared by the URL builders and the store: an optional value, the
    JSON-like payloads the store passes around untouched, and opaque callbacks. */
module Values {

  /** A value that may be missing. What `None` stands for is fixed where it is used:
      an absent property of a query item, a snackbar timeout left unset, no stored item. */
  datatype Option<+T> = None | Some(value: T)

  /** The JSON-shaped data the store forwards as request bodies, responses and
      confirmation items. The store never looks inside it. */
  datatype Json =
    | JNull
    | JBool(b: bool)
    | JNumber(n: int)
    | JString(s: string)
    | JArray(elements: seq<Json>)
    | JObject(members: seq<(string, Json)>)

  /** The empty object literal `{}`. */
  const EmptyObject: Json := JObject([])

  /** A JavaScript function value handed to the store (the confirmation dialog's
      callback). The store only stores it, so it is modelled by its identity. */
  datatype Callback = Callback(id: nat)
}
