/**
 * JSON documents as trees, and the event stream ijson yields for each one.
 * A stream is well formed exactly when it is `EventsOf(v)` for some document
 * `v`: containers are balanced and every key is followed by exactly one value.
 */
module Json {
  import Ijson

  /** Scalars keep the raw text of their literal, as ijson hands it over. */
  datatype Value =
    | JNull
    | JBool(b: bool)
    | JNumber(text: string)
    | JString(text: string)
    | JArray(items: seq<Value>)
    | JObject(members: seq<Member>)

  datatype Member = Member(key: string, value: Value)

  predicate IsScalar(v: Value) {
    !v.JArray? && !v.JObject?
  }

  function Last<T>(xs: seq<T>): T
    requires xs != []
  {
    xs[|xs| - 1]
  }

  /** The events ijson yields while parsing the text of `v`. */
  function EventsOf(v: Value): seq<Ijson.Event>
    decreases v
  {
    match v
    case JNull => [Ijson.Null]
    case JBool(b) => [Ijson.Boolean(b)]
    case JNumber(t) => [Ijson.Number(t)]
    case JString(t) => [Ijson.String(t)]
    case JArray(xs) => [Ijson.StartArray] + ItemsEvents(xs) + [Ijson.EndArray]
    case JObject(ms) => [Ijson.StartMap] + MembersEvents(ms) + [Ijson.EndMap]
  }

  function ItemsEvents(xs: seq<Value>): seq<Ijson.Event>
    decreases xs
  {
    if xs == [] then [] else EventsOf(xs[0]) + ItemsEvents(xs[1..])
  }

  function MembersEvents(ms: seq<Member>): seq<Ijson.Event>
    decreases ms
  {
    if ms == [] then [] else [Ijson.MapKey(ms[0].key)] + EventsOf(ms[0].value) + MembersEvents(ms[1..])
  }

  ghost predicate WellFormed(events: seq<Ijson.Event>) {
    exists v :: events == EventsOf(v)
  }

  /** The last event of a value's stream: its closing bracket, or the scalar itself. */
  function LastEvent(v: Value): (e: Ijson.Event)
    ensures EventsOf(v) != [] && Last(EventsOf(v)) == e
  {
    match v
    case JNull => Ijson.Null
    case JBool(b) => Ijson.Boolean(b)
    case JNumber(t) => Ijson.Number(t)
    case JString(t) => Ijson.String(t)
    case JArray(_) => Ijson.EndArray
    case JObject(_) => Ijson.EndMap
  }
}
