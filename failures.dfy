/**
 * The error paths of both commands. A parse error anywhere in the stream
 * means failure: no partial output is ever returned. The first parse error
 * reached is the one reported. The pretty printer fails only on a parse
 * error or a `seek` before the start of the buffer. The minifier also
 * fails, by reading its unbound `prevEvent`, exactly when the stream starts
 * with a closing bracket.
 */
module Failures {
  import opened Wrappers
  import opened Ijson
  import PrettyMachine
  import MinifyMachine

  predicate HasParseError(events: seq<Event>) {
    exists i :: 0 <= i < |events| && events[i].ParseError?
  }

  /** The errors that a bad seek or a parse error can raise. */
  predicate SeekOrParse(err: Error) {
    err.NegativeSeek? || err.InvalidJson?
  }

  // --------------------------------------------------------------- pretty

  lemma {:induction false} PrettyRunFailsOnParseError(st: PrettyMachine.PrettyState, events: seq<Event>, unit: string)
    requires HasParseError(events)
    ensures PrettyMachine.Run(st, events, unit).Failure?
    decreases |events|
  {
    var i :| 0 <= i < |events| && events[i].ParseError?;
    if i > 0 {
      match PrettyMachine.Step(st, events[0], unit)
      case Failure(_) =>
      case Success(next) =>
        assert events[1..][i - 1] == events[i];
        PrettyRunFailsOnParseError(next, events[1..], unit);
    }
  }

  /** A stream with a parse error anywhere yields no output. */
  lemma PrettyFailsOnParseError(events: seq<Event>, unit: string)
    requires HasParseError(events)
    ensures PrettyMachine.Format(events, unit).Failure?
  {
    PrettyRunFailsOnParseError(PrettyMachine.Start, events, unit);
  }

  /** When everything before the parse error was handled, the parse error is what is reported. */
  lemma PrettyReportsParseError(pre: seq<Event>, message: string, rest: seq<Event>, unit: string)
    requires PrettyMachine.Run(PrettyMachine.Start, pre, unit).Success?
    ensures PrettyMachine.Format(pre + [ParseError(message)] + rest, unit) == Failure(InvalidJson(message))
  {
    var tail := [ParseError(message)] + rest;
    assert pre + [ParseError(message)] + rest == pre + tail;
    PrettyMachine.RunAppend(PrettyMachine.Start, pre, tail, unit);
    assert tail[0] == ParseError(message);
  }

  lemma {:induction false} PrettyRunErrors(st: PrettyMachine.PrettyState, events: seq<Event>, unit: string)
    ensures PrettyMachine.Run(st, events, unit).Failure? ==> SeekOrParse(PrettyMachine.Run(st, events, unit).error)
    decreases |events|
  {
    if events != [] {
      match PrettyMachine.Step(st, events[0], unit)
      case Failure(_) =>
      case Success(next) => PrettyRunErrors(next, events[1..], unit);
    }
  }

  /** The pretty printer fails only on a parse error or a bad seek. */
  lemma PrettyErrors(events: seq<Event>, unit: string)
    ensures PrettyMachine.Format(events, unit).Failure? ==> SeekOrParse(PrettyMachine.Format(events, unit).error)
  {
    PrettyRunErrors(PrettyMachine.Start, events, unit);
  }

  // --------------------------------------------------------------- minify

  lemma {:induction false} MinifyRunFailsOnParseError(st: MinifyMachine.MinifyState, events: seq<Event>)
    requires HasParseError(events)
    ensures MinifyMachine.Run(st, events).Failure?
    decreases |events|
  {
    var i :| 0 <= i < |events| && events[i].ParseError?;
    if i > 0 {
      match MinifyMachine.Step(st, events[0])
      case Failure(_) =>
      case Success(next) =>
        assert events[1..][i - 1] == events[i];
        MinifyRunFailsOnParseError(next, events[1..]);
    }
  }

  /** A stream with a parse error anywhere yields no output. */
  lemma MinifyFailsOnParseError(events: seq<Event>)
    requires HasParseError(events)
    ensures MinifyMachine.Format(events).Failure?
  {
    MinifyRunFailsOnParseError(MinifyMachine.Start, events);
  }

  /** When everything before the parse error was handled, the parse error is what is reported. */
  lemma MinifyReportsParseError(pre: seq<Event>, message: string, rest: seq<Event>)
    requires MinifyMachine.Run(MinifyMachine.Start, pre).Success?
    ensures MinifyMachine.Format(pre + [ParseError(message)] + rest) == Failure(InvalidJson(message))
  {
    var tail := [ParseError(message)] + rest;
    assert pre + [ParseError(message)] + rest == pre + tail;
    MinifyMachine.RunAppend(MinifyMachine.Start, pre, tail);
    assert tail[0] == ParseError(message);
  }

  /** Once `prevEvent` is bound, only a bad seek or a parse error can stop the loop. */
  lemma {:induction false} MinifyRunBound(st: MinifyMachine.MinifyState, events: seq<Event>)
    requires st.prev.Some?
    ensures MinifyMachine.Run(st, events).Failure? ==> SeekOrParse(MinifyMachine.Run(st, events).error)
    decreases |events|
  {
    if events != [] {
      match MinifyMachine.Step(st, events[0])
      case Failure(_) =>
      case Success(next) => MinifyRunBound(next, events[1..]);
    }
  }

  /** The minifier reads its unbound `prevEvent` exactly when the first event closes a bracket. */
  lemma MinifyUnbound(events: seq<Event>)
    ensures MinifyMachine.Format(events) == Failure(UnboundPrevEvent)
        <==> events != [] && (events[0] == EndMap || events[0] == EndArray)
    ensures MinifyMachine.Format(events).Failure? && !MinifyMachine.Format(events).error.UnboundPrevEvent?
        ==> SeekOrParse(MinifyMachine.Format(events).error)
  {
    if events != [] {
      match MinifyMachine.Step(MinifyMachine.Start, events[0])
      case Failure(_) =>
      case Success(next) => MinifyRunBound(next, events[1..]);
    }
  }

  /** With no events at all, both commands' final `seek` goes before the start of the buffer. */
  lemma EmptyInput(unit: string)
    ensures PrettyMachine.Format([], unit) == Failure(NegativeSeek)
    ensures MinifyMachine.Format([]) == Failure(NegativeSeek)
  {
    assert PrettyMachine.Run(PrettyMachine.Start, [], unit) == Success(PrettyMachine.Start);
    assert MinifyMachine.Run(MinifyMachine.Start, []) == Success(MinifyMachine.Start);
  }
}
