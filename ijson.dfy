/**
 * What the formatters consume and how a formatting call can end.
 *
 * The event source is `ijson.parse(..., do_translate=False)`: it yields the
 * events of the document one at a time, with every scalar carried as the raw
 * text of its literal. The path prefix each event comes with is unused by
 * both formatters and is not modelled.
 */
module Ijson {

  datatype Event =
    | StartMap
    | EndMap
    | StartArray
    | EndArray
    | MapKey(key: string)
    | Null
    | Boolean(value: bool)
    | Number(text: string)
    | String(text: string)
      /** ijson raising `JSONError` while the formatter pulls the next event. */
    | ParseError(message: string)

  predicate IsScalarEvent(e: Event) {
    e.Null? || e.Boolean? || e.Number? || e.String?
  }

  /** How one formatting call fails. */
  datatype Error =
      /** `ijson.JSONError` is caught: `process` shows the message and returns None. */
    | InvalidJson(message: string)
      /** `seek` to a negative position raises ValueError, which nothing catches. */
    | NegativeSeek
      /** Minify reads `prevEvent` before anything assigned it: UnboundLocalError, which nothing catches. */
    | UnboundPrevEvent

  /** Open containers minus closed ones: the nesting depth after `events`. */
  function Depth(events: seq<Event>): int
  {
    if events == [] then 0
    else Depth(events[..|events| - 1]) + DepthChange(events[|events| - 1])
  }

  /** No prefix of `events` closes more containers than it opened. */
  predicate NeverUnderflows(events: seq<Event>)
  {
    Depth(events) >= 0 && (events == [] || NeverUnderflows(events[..|events| - 1]))
  }

  function DepthChange(e: Event): int
  {
    if e == StartMap || e == StartArray then 1
    else if e == EndMap || e == EndArray then -1
    else 0
  }
}
