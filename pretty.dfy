/**
 * `PrettyIjsonCommand.process`: the event loop that pretty-prints a JSON
 * document into a `StringIO` buffer, back-patching the separator it wrote
 * speculatively after each value. Each branch of the loop's `if`/`elif`
 * chain is a method of its own, proved to do what `PrettyMachine.Step`
 * does; `ok` is false exactly where a `seek` before the start of the buffer
 * raises.
 */
module PrettyIjson {
  import opened Wrappers
  import opened StringIO
  import opened Ijson
  import opened Output
  import opened PrettyMachine
  import Json
  import Layout
  import PrettyTheorem

  /** `start_map` and `start_array`: turn a preceding `",\n"` into `", "`, then the bracket; one more unit of indent. */
  method OnOpen(sOut: Buffer, event: Event, prevEvent: Option<Event>, indent: string, indentString: string)
    returns (ok: bool, newIndent: string)
    requires event == StartMap || event == StartArray
    modifies sOut
    ensures var r := Step(PrettyState(old(sOut.Value()), prevEvent, indent), event, indentString);
      if ok then r == Success(PrettyState(sOut.Value(), Some(event), newIndent)) else r == Failure(NegativeSeek)
  {
    ok, newIndent := true, indent;
    if AfterClose(prevEvent) {
      var p: int := sOut.Tell();
      ok := sOut.Seek(p - 1);
      if !ok { return; }
      sOut.Write(" ");
    }
    sOut.Write(if event == StartMap then "{\n" else "[");
    newIndent := indent + indentString;
  }

  /** `end_map` */
  method OnEndMap(sOut: Buffer, prevEvent: Option<Event>, indent: string, indentString: string)
    returns (ok: bool, newIndent: string)
    modifies sOut
    ensures var r := Step(PrettyState(old(sOut.Value()), prevEvent, indent), EndMap, indentString);
      if ok then r == Success(PrettyState(sOut.Value(), Some(EndMap), newIndent)) else r == Failure(NegativeSeek)
  {
    var lenIndent := |indentString|;
    newIndent := indent;
    var p: int := sOut.Tell();
    if prevEvent == Some(StartMap) {
      ok := sOut.Seek(p - 1);
      if !ok { return; }
      sOut.Write("},\n");
      newIndent := DropLast(indent, lenIndent);
    } else {
      ok := sOut.Seek(p - 2);
      if !ok { return; }
      sOut.Write("\n");
      newIndent := DropLast(indent, lenIndent);
      sOut.Write(newIndent + "},\n");
    }
  }

  /** `end_array` */
  method OnEndArray(sOut: Buffer, prevEvent: Option<Event>, indent: string, indentString: string)
    returns (ok: bool, newIndent: string)
    modifies sOut
    ensures var r := Step(PrettyState(old(sOut.Value()), prevEvent, indent), EndArray, indentString);
      if ok then r == Success(PrettyState(sOut.Value(), Some(EndArray), newIndent)) else r == Failure(NegativeSeek)
  {
    var lenIndent := |indentString|;
    ok, newIndent := true, indent;
    if prevEvent == Some(StartArray) {
      sOut.Write("],\n");
      newIndent := DropLast(indent, lenIndent);
    } else if prevEvent == Some(EndMap) {
      var p: int := sOut.Tell();
      ok := sOut.Seek(p - 2);
      if !ok { return; }
      sOut.Write("\n");
      newIndent := DropLast(indent, lenIndent);
      sOut.Write(newIndent + "],\n");
    } else {
      var p: int := sOut.Tell();
      ok := sOut.Seek(p - 2);
      if !ok { return; }
      sOut.Write("],\n");
      newIndent := DropLast(indent, lenIndent);
    }
  }

  /** `map_key`: the key, quoted, at the current indent. */
  method OnKey(sOut: Buffer, key: string, prevEvent: Option<Event>, indent: string, indentString: string)
    modifies sOut
    ensures Step(PrettyState(old(sOut.Value()), prevEvent, indent), MapKey(key), indentString)
         == Success(PrettyState(sOut.Value(), Some(MapKey(key)), indent))
  {
    sOut.Write(indent + "\"" + key + "\"" + ": ");
  }

  /** A scalar: after an object its `",\n"` becomes `", "`; then the literal, `","`, and a line break or a space. */
  method OnScalar(sOut: Buffer, event: Event, prevEvent: Option<Event>, indent: string, indentString: string)
    returns (ok: bool)
    requires IsScalarEvent(event)
    modifies sOut
    ensures var r := Step(PrettyState(old(sOut.Value()), prevEvent, indent), event, indentString);
      if ok then r == Success(PrettyState(sOut.Value(), Some(event), indent)) else r == Failure(NegativeSeek)
  {
    ok := true;
    if prevEvent == Some(EndMap) {
      var p: int := sOut.Tell();
      ok := sOut.Seek(p - 1);
      if !ok { return; }
      sOut.Write(" ");
    }
    sOut.Write(Literal(event) + ",");
    sOut.Write(if AfterKey(prevEvent) then "\n" else " ");
  }

  /**
   * The result is the event-by-event machine's, and for the events of any
   * document it is that document's pretty layout, indented by the unit the
   * setting gives: the events of a document never fail.
   */
  method Process(events: seq<Event>, setting: IndentSetting) returns (r: Result<string, Error>)
    ensures r == Format(events, IndentUnit(setting))
    ensures forall v :: events == Json.EventsOf(v) ==> r == Success(Layout.Pretty(v, IndentUnit(setting), 0))
    ensures Json.WellFormed(events) ==> r.Success?
  {
    var indentString := IndentUnit(setting);
    PrettyTheorem.FormatDocuments(events, indentString);
    var indent := "";
    var prevEvent: Option<Event> := None;
    var sOut := new Buffer();
    var i := 0;
    while i < |events|
      invariant i <= |events|
      invariant Run(Start, events, indentString) == Run(PrettyState(sOut.Value(), prevEvent, indent), events[i..], indentString)
    {
      ghost var before := PrettyState(sOut.Value(), prevEvent, indent);
      RunAt(before, events, i, indentString);
      var event := events[i];
      var ok := true;
      match event {
        case StartMap =>
          ok, indent := OnOpen(sOut, event, prevEvent, indent, indentString);
        case EndMap =>
          ok, indent := OnEndMap(sOut, prevEvent, indent, indentString);
        case StartArray =>
          ok, indent := OnOpen(sOut, event, prevEvent, indent, indentString);
        case EndArray =>
          ok, indent := OnEndArray(sOut, prevEvent, indent, indentString);
        case MapKey(key) =>
          OnKey(sOut, key, prevEvent, indent, indentString);
        case Null | Boolean(_) | Number(_) | String(_) =>
          ok := OnScalar(sOut, event, prevEvent, indent, indentString);
        case ParseError(message) =>
          return Failure(InvalidJson(message));
      }
      if !ok { return Failure(NegativeSeek); }
      assert Step(before, event, indentString) == Success(PrettyState(sOut.Value(), Some(event), indent));
      prevEvent := Some(event);
      i := i + 1;
    }
    r := Finish(sOut, 2);
  }
}
