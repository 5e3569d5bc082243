/** Values shared by every part of the dashboard model: optional lookups,
    the JSON values that request bodies carry, and the store requests the
    pages and forms issue. */
module Common {

  /** The result of `Array.prototype.find`: `None` stands for `undefined`. */
  datatype Option<+T> = None | Some(value: T) {
    function GetOr(default: T): T {
      match this
      case Some(v) => v
      case None => default
    }
  }

  /** A document id issued by the store (`_id`); the empty string marks a
      record that has not been stored yet. */
  type Id = string

  /** A calendar date as a day number; later days are larger. */
  type Day = int

  /** The values a request body or a record field can hold. */
  datatype Json = Str(text: string) | Bool(flag: bool) | Date(day: Day)

  /** The two collections the client writes to. */
  datatype Collection = WorkOrders | Users

  /** A request the client sends to the store: a body is a JSON object,
      a map from field names to values. */
  datatype StoreRequest =
    | Post(collection: Collection, body: map<string, Json>)
    | Put(collection: Collection, id: Id, body: map<string, Json>)
    | Delete(collection: Collection, id: Id)
}
