/**
 * The pretty-printing state machine of `PrettyIjsonCommand.process`, one
 * event at a time, on the abstract value of the output stream. After every
 * value or closing bracket it leaves a speculative separator in the buffer,
 * and later events back-patch it.
 */
module PrettyMachine {
  import opened Wrappers
  import opened StringIO
  import opened Ijson
  import opened Output
  import Json
  import Layout

  /** The `json_indent` setting: a count of spaces, or a literal indent string. */
  datatype IndentSetting = Width(n: int) | Text(s: string)

  /** `''.ljust(n)`: `n` spaces, none when `n` is not positive. */
  function Spaces(n: int): (r: string)
    ensures |r| == if n > 0 then n else 0
    ensures forall i :: 0 <= i < |r| ==> r[i] == ' '
  {
    if n <= 0 then "" else Spaces(n - 1) + " "
  }

  /** The indent unit `indent_string` that one level of nesting adds. */
  function IndentUnit(setting: IndentSetting): (unit: string)
    ensures setting.Width? ==> |unit| == (if setting.n > 0 then setting.n else 0)
    ensures setting.Width? ==> forall i :: 0 <= i < |unit| ==> unit[i] == ' '
    ensures setting.Text? ==> unit == setting.s
  {
    match setting
    case Width(n) => Spaces(n)
    case Text(s) => s
  }

  /** Python's `s[:-n]`: all but the last `n` characters, and nothing at all when `n` is 0. */
  function DropLast(s: string, n: nat): (r: string)
    ensures |r| == if n == 0 || n >= |s| then 0 else |s| - n
    ensures r == s[..|r|]
  {
    if n == 0 || n >= |s| then "" else s[..|s| - n]
  }

  /** `prevEvent`, `indent` and the output stream; `prev == None` is the initial `""`. */
  datatype PrettyState = PrettyState(out: Stream, prev: Option<Event>, indent: string)

  const Start := PrettyState(Stream("", 0), None, "")

  /** `prevEvent.startswith("end_")` */
  predicate AfterClose(prev: Option<Event>) {
    prev == Some(EndMap) || prev == Some(EndArray)
  }

  /** `prevEvent == "map_key"` */
  predicate AfterKey(prev: Option<Event>) {
    prev.Some? && prev.value.MapKey?
  }

  /** One iteration of the event loop (prettyijson.py:84-140). */
  function Step(st: PrettyState, e: Event, unit: string): Result<PrettyState, Error> {
    match e
    case StartMap =>
      var out :- if AfterClose(st.prev) then Patch(st.out, 1, " ") else Success(st.out);
      Success(PrettyState(out.Write("{\n"), Some(e), st.indent + unit))
    case EndMap =>
      if st.prev == Some(StartMap) then
        var out :- Patch(st.out, 1, "},\n");
        Success(PrettyState(out, Some(e), DropLast(st.indent, |unit|)))
      else
        var out :- Patch(st.out, 2, "\n");
        var indent := DropLast(st.indent, |unit|);
        Success(PrettyState(out.Write(indent + "},\n"), Some(e), indent))
    case StartArray =>
      var out :- if AfterClose(st.prev) then Patch(st.out, 1, " ") else Success(st.out);
      Success(PrettyState(out.Write("["), Some(e), st.indent + unit))
    case EndArray =>
      if st.prev == Some(StartArray) then
        Success(PrettyState(st.out.Write("],\n"), Some(e), DropLast(st.indent, |unit|)))
      else if st.prev == Some(EndMap) then
        var out :- Patch(st.out, 2, "\n");
        var indent := DropLast(st.indent, |unit|);
        Success(PrettyState(out.Write(indent + "],\n"), Some(e), indent))
      else
        var out :- Patch(st.out, 2, "],\n");
        Success(PrettyState(out, Some(e), DropLast(st.indent, |unit|)))
    case MapKey(key) =>
      Success(PrettyState(st.out.Write(st.indent + "\"" + key + "\"" + ": "), Some(e), st.indent))
    case Null | Boolean(_) | Number(_) | String(_) =>
      var out :- if st.prev == Some(EndMap) then Patch(st.out, 1, " ") else Success(st.out);
      var out := out.Write(Literal(e) + ",");
      Success(PrettyState(out.Write(if AfterKey(st.prev) then "\n" else " "), Some(e), st.indent))
    case ParseError(message) =>
      Failure(InvalidJson(message))
  }

  /** The event loop over `events` from `st`, stopping at the first failure. */
  function Run(st: PrettyState, events: seq<Event>, unit: string): Result<PrettyState, Error>
    decreases |events|
  {
    if events == [] then Success(st)
    else
      match Step(st, events[0], unit)
      case Failure(err) => Failure(err)
      case Success(next) => Run(next, events[1..], unit)
  }

  /** The whole of `process` after the settings: the loop, then `seek(tell() - 2)`, `truncate()`, `getvalue()`. */
  function Format(events: seq<Event>, unit: string): Result<string, Error> {
    var st :- Run(Start, events, unit);
    Trimmed(st.out, 2)
  }

  // ------------------------------------------------------- the run, split up

  /** Running `a + b` is running `a`, then `b` from where `a` stopped. */
  lemma {:induction false} RunAppend(st: PrettyState, a: seq<Event>, b: seq<Event>, unit: string)
    ensures Run(st, a, unit).Success? ==> Run(st, a + b, unit) == Run(Run(st, a, unit).value, b, unit)
    ensures Run(st, a, unit).Failure? ==> Run(st, a + b, unit) == Run(st, a, unit)
    decreases |a|
  {
    if a == [] {
      assert a + b == b;
    } else {
      assert (a + b)[0] == a[0];
      assert (a + b)[1..] == a[1..] + b;
      match Step(st, a[0], unit)
      case Failure(_) =>
      case Success(next) => RunAppend(next, a[1..], b, unit);
    }
  }

  /** Running from index `i` is one step, then the rest. */
  lemma RunAt(st: PrettyState, events: seq<Event>, i: nat, unit: string)
    requires i < |events|
    ensures Run(st, events[i..], unit)
         == match Step(st, events[i], unit)
            case Failure(err) => Failure(err)
            case Success(next) => Run(next, events[i + 1..], unit)
  {
    assert events[i..][0] == events[i];
    assert events[i..][1..] == events[i + 1..];
  }

  /** Every branch leaves the cursor at the end of the buffer, however it back-patched. */
  lemma StepKeepsAtEnd(st: PrettyState, e: Event, unit: string)
    requires st.out.AtEnd() && Step(st, e, unit).Success?
    ensures Step(st, e, unit).value.out.AtEnd()
  {
    if e == EndMap || e == EndArray {
      CloseKeepsAtEnd(st, e, unit);
    } else if e.Null? || e.Boolean? || e.Number? || e.String? {
      ScalarKeepsAtEnd(st, e, unit);
    }
  }

  lemma CloseKeepsAtEnd(st: PrettyState, e: Event, unit: string)
    requires e == EndMap || e == EndArray
    requires st.out.AtEnd() && Step(st, e, unit).Success?
    ensures Step(st, e, unit).value.out.AtEnd()
  {
    if e == EndMap && st.prev != Some(StartMap) {
      ShortPatch(st.out, 2, "\n");
    } else if e == EndArray && st.prev == Some(EndMap) {
      ShortPatch(st.out, 2, "\n");
    }
  }

  lemma ScalarKeepsAtEnd(st: PrettyState, e: Event, unit: string)
    requires e.Null? || e.Boolean? || e.Number? || e.String?
    requires st.out.AtEnd() && Step(st, e, unit).Success?
    ensures Step(st, e, unit).value.out.AtEnd()
  {
  }

  /** So the cursor is at the end when the loop is over. */
  lemma {:induction false} RunKeepsAtEnd(st: PrettyState, events: seq<Event>, unit: string)
    requires st.out.AtEnd() && Run(st, events, unit).Success?
    ensures Run(st, events, unit).value.out.AtEnd()
    decreases |events|
  {
    if events != [] {
      StepKeepsAtEnd(st, events[0], unit);
      RunKeepsAtEnd(Step(st, events[0], unit).value, events[1..], unit);
    }
  }

  /** The final `seek(tell() - 2)` and `truncate()` cut the last two characters off what the loop wrote. */
  lemma FormatCutsTwo(events: seq<Event>, unit: string)
    requires Run(Start, events, unit).Success?
    ensures var t := Run(Start, events, unit).value.out.text;
      Format(events, unit) == if |t| >= 2 then Success(t[..|t| - 2]) else Failure(NegativeSeek)
  {
    RunKeepsAtEnd(Start, events, unit);
    TrimmedAtEnd(Run(Start, events, unit).value.out, 2);
  }

  // --------------------------------------------------------- the indent

  /** Removing one unit undoes adding one. */
  lemma DedentAfterIndent(unit: string, d: nat)
    ensures DropLast(Layout.Repeat(unit, d) + unit, |unit|) == Layout.Repeat(unit, d)
  {
    var r := Layout.Repeat(unit, d);
    if |unit| == 0 {
      Layout.RepeatShape(unit, d);
      assert |r| == 0;
    } else {
      assert (r + unit)[..|r|] == r;
    }
  }

  /** Each `start_*` adds one unit to the indent, each `end_*` drops `|unit|` characters, every other event keeps it. */
  lemma StepIndentChange(st: PrettyState, e: Event, unit: string)
    requires Step(st, e, unit).Success?
    ensures Step(st, e, unit).value.indent
         == if e == StartMap || e == StartArray then st.indent + unit
            else if e == EndMap || e == EndArray then DropLast(st.indent, |unit|)
            else st.indent
  {
  }

  /** At depth `d`, with `d` units of indent, the indent a step leaves is that of the new depth. */
  lemma IndentOfDepth(unit: string, d: nat, e: Event)
    requires e == EndMap || e == EndArray ==> d >= 1
    ensures d + DepthChange(e) >= 0
    ensures (if e == StartMap || e == StartArray then Layout.Repeat(unit, d) + unit
             else if e == EndMap || e == EndArray then DropLast(Layout.Repeat(unit, d), |unit|)
             else Layout.Repeat(unit, d))
         == Layout.Repeat(unit, (d + DepthChange(e)) as nat)
  {
    if e == StartMap || e == StartArray {
      assert DepthChange(e) == 1;
      assert Layout.Repeat(unit, d + 1) == Layout.Repeat(unit, d) + unit;
    } else if e == EndMap || e == EndArray {
      assert DepthChange(e) == -1;
      DedentAfterIndent(unit, d - 1);
      assert Layout.Repeat(unit, d) == Layout.Repeat(unit, d - 1) + unit;
    } else {
      assert DepthChange(e) == 0;
    }
  }

  /** Running `pre + [e]` is running `pre`, then one step. */
  lemma RunSnoc(st: PrettyState, pre: seq<Event>, e: Event, unit: string)
    ensures Run(st, pre + [e], unit).Success? ==> Run(st, pre, unit).Success?
    ensures Run(st, pre, unit).Success? ==> Run(st, pre + [e], unit) == Step(Run(st, pre, unit).value, e, unit)
  {
    RunAppend(st, pre, [e], unit);
    if Run(st, pre, unit).Success? {
      var mid := Run(st, pre, unit).value;
      assert [e][1..] == [];
      match Step(mid, e, unit)
      case Failure(_) =>
      case Success(next) => assert Run(next, [], unit) == Success(next);
    }
  }

  /**
   * The indent tracks the nesting depth: after any run that succeeds and
   * never closes more containers than it opened, `indent` is `Depth(events)`
   * copies of the unit.
   */
  lemma {:induction false} IndentIsDepth(events: seq<Event>, unit: string)
    requires Run(Start, events, unit).Success?
    requires NeverUnderflows(events)
    ensures Depth(events) >= 0
    ensures Run(Start, events, unit).value.indent == Layout.Repeat(unit, Depth(events) as nat)
    decreases |events|
  {
    if events != [] {
      var pre, e := events[..|events| - 1], events[|events| - 1];
      assert events == pre + [e];
      RunSnoc(Start, pre, e, unit);
      IndentIsDepth(pre, unit);
      var st := Run(Start, pre, unit).value;
      assert Depth(events) == Depth(pre) + DepthChange(e);
      StepIndentChange(st, e, unit);
      IndentOfDepth(unit, Depth(pre) as nat, e);
    }
  }

  /** Hence `|indent| == depth * len(indent_string)` throughout such a run. */
  lemma IndentLength(events: seq<Event>, unit: string)
    requires Run(Start, events, unit).Success?
    requires NeverUnderflows(events)
    ensures |Run(Start, events, unit).value.indent| == Depth(events) * |unit|
  {
    IndentIsDepth(events, unit);
    Layout.RepeatShape(unit, Depth(events) as nat);
  }
}
