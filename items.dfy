/** Data items as the storage platform holds them: a JavaScript object whose fields
    are drawn from the field names this code uses. */
module Items {
  import opened Wrappers
  import opened QuizData

  /** The field names written or read by the backend code (`_id` is `Id`). */
  datatype Field = Id | UserId | QuizId | Progress | Results | Created | LastUpdated | Submitted

  /** The values those fields hold. `Null` is `null`; a missing field is a key absent
      from the item's map. */
  datatype Value =
    | Null
    | Text(s: string)
    | Key(n: nat)
    | Date(t: int)
    | ProgressData(p: QuizData.Progress)
    | ResultsData(r: QuizData.Results)

  /** JavaScript truthiness of a stored value: `null` and the empty string are falsy. */
  predicate Truthy(v: Value)
  {
    !(v.Null? || (v.Text? && v.s == ""))
  }

  type Document = map<Field, Value>

  /** A mutable item object, as handed to a data hook. */
  class Item {
    var fields: Document

    constructor (fields: Document)
      ensures this.fields == fields
    {
      this.fields := fields;
    }
  }

  /** The value stored for a user identifier that may be `null`. */
  function UserValue(userId: Option<string>): Value
  {
    match userId
    case None => Null
    case Some(u) => Text(u)
  }
}
