/**
 * The minifying state machine of `MinifyIjsonCommand.process`, one event at
 * a time, on the abstract value of the output stream. Every value and every
 * closing bracket is followed by a speculative `","`, which a closing
 * bracket or the final trim overwrites.
 */
module MinifyMachine {
  import opened Wrappers
  import opened StringIO
  import opened Ijson
  import opened Output

  /**
   * `prevEvent` and the output stream. The source never initialises
   * `prevEvent`, so `prev == None` is the unbound local: reading it, which
   * only the `end_*` branches do, raises.
   */
  datatype MinifyState = MinifyState(out: Stream, prev: Option<Event>)

  const Start := MinifyState(Stream("", 0), None)

  /** One iteration of the event loop (prettyijson.py:161-188). */
  function Step(st: MinifyState, e: Event): Result<MinifyState, Error> {
    match e
    case StartMap =>
      Success(MinifyState(st.out.Write("{"), Some(e)))
    case EndMap =>
      if st.prev.None? then Failure(UnboundPrevEvent)
      else if st.prev == Some(StartMap) then Success(MinifyState(st.out.Write("},"), Some(e)))
      else
        var out :- Patch(st.out, 1, "},");
        Success(MinifyState(out, Some(e)))
    case StartArray =>
      Success(MinifyState(st.out.Write("["), Some(e)))
    case EndArray =>
      if st.prev.None? then Failure(UnboundPrevEvent)
      else if st.prev == Some(StartArray) then Success(MinifyState(st.out.Write("],"), Some(e)))
      else
        var out :- Patch(st.out, 1, "],");
        Success(MinifyState(out, Some(e)))
    case MapKey(key) =>
      Success(MinifyState(st.out.Write("\"" + key + "\"" + ":"), Some(e)))
    case Null | Boolean(_) | Number(_) | String(_) =>
      Success(MinifyState(st.out.Write(Literal(e) + ","), Some(e)))
    case ParseError(message) =>
      Failure(InvalidJson(message))
  }

  /** The event loop over `events` from `st`, stopping at the first failure. */
  function Run(st: MinifyState, events: seq<Event>): Result<MinifyState, Error>
    decreases |events|
  {
    if events == [] then Success(st)
    else
      match Step(st, events[0])
      case Failure(err) => Failure(err)
      case Success(next) => Run(next, events[1..])
  }

  /** The whole of `process`: the loop, then `seek(tell() - 1)`, `truncate()`, `getvalue()`. */
  function Format(events: seq<Event>): Result<string, Error> {
    var st :- Run(Start, events);
    Trimmed(st.out, 1)
  }

  /** Running `a + b` is running `a`, then `b` from where `a` stopped. */
  lemma {:induction false} RunAppend(st: MinifyState, a: seq<Event>, b: seq<Event>)
    ensures Run(st, a).Success? ==> Run(st, a + b) == Run(Run(st, a).value, b)
    ensures Run(st, a).Failure? ==> Run(st, a + b) == Run(st, a)
    decreases |a|
  {
    if a == [] {
      assert a + b == b;
    } else {
      assert (a + b)[0] == a[0];
      assert (a + b)[1..] == a[1..] + b;
      match Step(st, a[0])
      case Failure(_) =>
      case Success(next) => RunAppend(next, a[1..], b);
    }
  }

  /** Running from index `i` is one step, then the rest. */
  lemma RunAt(st: MinifyState, events: seq<Event>, i: nat)
    requires i < |events|
    ensures Run(st, events[i..])
         == match Step(st, events[i])
            case Failure(err) => Failure(err)
            case Success(next) => Run(next, events[i + 1..])
  {
    assert events[i..][0] == events[i];
    assert events[i..][1..] == events[i + 1..];
  }

  /** Every branch leaves the cursor at the end of the buffer, however it back-patched. */
  lemma StepKeepsAtEnd(st: MinifyState, e: Event)
    requires st.out.AtEnd() && Step(st, e).Success?
    ensures Step(st, e).value.out.AtEnd()
  {
  }

  /** So the cursor is at the end when the loop is over. */
  lemma {:induction false} RunKeepsAtEnd(st: MinifyState, events: seq<Event>)
    requires st.out.AtEnd() && Run(st, events).Success?
    ensures Run(st, events).value.out.AtEnd()
    decreases |events|
  {
    if events != [] {
      StepKeepsAtEnd(st, events[0]);
      RunKeepsAtEnd(Step(st, events[0]).value, events[1..]);
    }
  }

  /** The final `seek(tell() - 1)` and `truncate()` cut the last character off what the loop wrote. */
  lemma FormatCutsOne(events: seq<Event>)
    requires Run(Start, events).Success?
    ensures var t := Run(Start, events).value.out.text;
      Format(events) == if |t| >= 1 then Success(t[..|t| - 1]) else Failure(NegativeSeek)
  {
    RunKeepsAtEnd(Start, events);
    TrimmedAtEnd(Run(Start, events).value.out, 1);
  }
}
