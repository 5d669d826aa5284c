/**
 * `MinifyIjsonCommand.process`: the event loop that writes a JSON document
 * without any whitespace into a `StringIO` buffer, each value followed by a
 * `","` that the next closing bracket or the final trim overwrites.
 */
module MinifyIjson {
  import opened Wrappers
  import opened StringIO
  import opened Ijson
  import opened Output
  import opened MinifyMachine
  import Json
  import Layout
  import MinifyTheorem

  /**
   * `end_map` and `end_array` once `prevEvent` is bound: right after the
   * opening bracket the closing one is appended, otherwise it overwrites the
   * last value's `","`.
   */
  method OnClose(sOut: Buffer, event: Event, prevEvent: Option<Event>) returns (ok: bool)
    requires event == EndMap || event == EndArray
    requires prevEvent.Some?
    modifies sOut
    ensures var r := Step(MinifyState(old(sOut.Value()), prevEvent), event);
      if ok then r == Success(MinifyState(sOut.Value(), Some(event))) else r == Failure(NegativeSeek)
  {
    var bracket := if event == EndMap then "}," else "],";
    ok := true;
    if prevEvent == Some(if event == EndMap then StartMap else StartArray) {
      sOut.Write(bracket);
    } else {
      var p: int := sOut.Tell();
      ok := sOut.Seek(p - 1);
      if !ok { return; }
      sOut.Write(bracket);
    }
  }

  /**
   * The result is the event-by-event machine's, and for the events of any
   * document it is that document's compact layout: the events of a document
   * never fail.
   */
  method Process(events: seq<Event>) returns (r: Result<string, Error>)
    ensures r == Format(events)
    ensures forall v :: events == Json.EventsOf(v) ==> r == Success(Layout.Compact(v))
    ensures Json.WellFormed(events) ==> r.Success?
  {
    MinifyTheorem.FormatDocuments(events);
    var prevEvent: Option<Event> := None;
    var sOut := new Buffer();
    var i := 0;
    while i < |events|
      invariant i <= |events|
      invariant Run(Start, events) == Run(MinifyState(sOut.Value(), prevEvent), events[i..])
    {
      ghost var before := MinifyState(sOut.Value(), prevEvent);
      RunAt(before, events, i);
      var event := events[i];
      match event {
        case StartMap =>
          sOut.Write("{");
        case EndMap | EndArray =>
          if prevEvent.None? { return Failure(UnboundPrevEvent); }
          var ok := OnClose(sOut, event, prevEvent);
          if !ok { return Failure(NegativeSeek); }
        case StartArray =>
          sOut.Write("[");
        case MapKey(key) =>
          sOut.Write("\"" + key + "\"" + ":");
        case Null | Boolean(_) | Number(_) | String(_) =>
          sOut.Write(Literal(event) + ",");
        case ParseError(message) =>
          return Failure(InvalidJson(message));
      }
      assert Step(before, event) == Success(MinifyState(sOut.Value(), Some(event)));
      prevEvent := Some(event);
      i := i + 1;
    }
    r := Finish(sOut, 1);
  }
}
