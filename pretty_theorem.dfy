/**
 * The pretty machine against the tree layout: fed the events of a document,
 * the back-patching loop ends with exactly `Layout.Pretty` of that document
 * followed by one speculative separator, which the final trim removes.
 */
module PrettyTheorem {
  import opened Wrappers
  import opened StringIO
  import opened Ijson
  import opened Output
  import opened Json
  import opened Layout
  import opened PrettyMachine

  /** A state whose cursor is at the end of `text`. */
  function At(text: string, prev: Option<Event>, indent: string): PrettyState {
    PrettyState(Stream(text, |text|), prev, indent)
  }

  // ------------------------------------------------- single steps at the end

  lemma PatchAtEnd(t: string, k: nat, s: string)
    requires k <= |t| && |s| >= k
    ensures Patch(Stream(t, |t|), k, s) == Success(Stream(t[..|t| - k] + s, |t| - k + |s|))
  {
    BackPatch(Stream(t, |t|), k, s);
  }

  /** `seek(tell() - 2)`, `write("\n")`, `write(w)`: the last two characters become `"\n" + w`. */
  lemma NewlinePatchThenWrite(t: string, w: string)
    requires |t| >= 2 && |w| >= 1
    ensures Patch(Stream(t, |t|), 2, "\n").Success?
    ensures Patch(Stream(t, |t|), 2, "\n").value.Write(w) == Stream(t[..|t| - 2] + "\n" + w, |t| - 1 + |w|)
  {
    var st := Stream(t, |t|);
    ShortPatch(st, 2, "\n");
    var mid := Stream(t[..|t| - 2] + "\n" + t[|t| - 1..], |t| - 1);
    assert Patch(st, 2, "\n") == Success(mid);
    var r := mid.Write(w);
    assert |r.text| == |t| - 1 + |w|;
    assert r.text[..|t| - 1] == t[..|t| - 2] + "\n";
    assert r.text[|t| - 1..] == w;
    assert r.text == r.text[..|t| - 1] + r.text[|t| - 1..];
  }

  lemma RunOne(st: PrettyState, e: Event, unit: string)
    ensures Run(st, [e], unit) == Step(st, e, unit)
  {
    assert [e][0] == e && [e][1..] == [];
    match Step(st, e, unit)
    case Failure(_) =>
    case Success(next) => assert Run(next, [], unit) == Success(next);
  }

  /** Opening a container: after a close, its `",\n"` becomes `", "` first. */
  lemma StepOpen(t: string, p: Option<Event>, indent: string, unit: string, e: Event)
    requires e == StartMap || e == StartArray
    requires AfterClose(p) ==> |t| >= 1
    ensures Step(At(t, p, indent), e, unit)
         == Success(At((if AfterClose(p) then t[..|t| - 1] + " " else t) + (if e == StartMap then "{\n" else "["),
                       Some(e), indent + unit))
  {
    var t' := if AfterClose(p) then t[..|t| - 1] + " " else t;
    if AfterClose(p) {
      PatchAtEnd(t, 1, " ");
      assert |t[..|t| - 1] + " "| == |t|;
    }
    AppendAtEnd(Stream(t', |t'|), if e == StartMap then "{\n" else "[");
  }

  /** Closing an empty object: `"{\n"` becomes `"{},\n"`. */
  lemma StepCloseEmptyMap(t: string, indent: string, unit: string)
    requires |t| >= 1
    ensures Step(At(t, Some(StartMap), indent), EndMap, unit)
         == Success(At(t[..|t| - 1] + "},\n", Some(EndMap), DropLast(indent, |unit|)))
  {
    PatchAtEnd(t, 1, "},\n");
  }

  /** Closing a non-empty object: the separator becomes a line break, then the bracket at the outer indent. */
  lemma StepCloseMap(t: string, p: Option<Event>, indent: string, unit: string)
    requires |t| >= 2 && p != Some(StartMap)
    ensures Step(At(t, p, indent), EndMap, unit)
         == Success(At(t[..|t| - 2] + "\n" + DropLast(indent, |unit|) + "},\n", Some(EndMap), DropLast(indent, |unit|)))
  {
    var d := DropLast(indent, |unit|);
    NewlinePatchThenWrite(t, d + "},\n");
    assert t[..|t| - 2] + "\n" + (d + "},\n") == t[..|t| - 2] + "\n" + d + "},\n";
  }

  lemma StepCloseEmptyArray(t: string, indent: string, unit: string)
    ensures Step(At(t, Some(StartArray), indent), EndArray, unit)
         == Success(At(t + "],\n", Some(EndArray), DropLast(indent, |unit|)))
  {
    AppendAtEnd(Stream(t, |t|), "],\n");
  }

  /** Closing an array whose last item is an object: the bracket goes on its own line. */
  lemma StepCloseArrayAfterMap(t: string, indent: string, unit: string)
    requires |t| >= 2
    ensures Step(At(t, Some(EndMap), indent), EndArray, unit)
         == Success(At(t[..|t| - 2] + "\n" + DropLast(indent, |unit|) + "],\n", Some(EndArray), DropLast(indent, |unit|)))
  {
    var d := DropLast(indent, |unit|);
    NewlinePatchThenWrite(t, d + "],\n");
    assert t[..|t| - 2] + "\n" + (d + "],\n") == t[..|t| - 2] + "\n" + d + "],\n";
  }

  /** Closing any other non-empty array: the separator is replaced by the bracket. */
  lemma StepCloseArray(t: string, p: Option<Event>, indent: string, unit: string)
    requires |t| >= 2 && p != Some(StartArray) && p != Some(EndMap)
    ensures Step(At(t, p, indent), EndArray, unit)
         == Success(At(t[..|t| - 2] + "],\n", Some(EndArray), DropLast(indent, |unit|)))
  {
    PatchAtEnd(t, 2, "],\n");
  }

  lemma StepKey(t: string, p: Option<Event>, indent: string, unit: string, key: string)
    ensures Step(At(t, p, indent), MapKey(key), unit)
         == Success(At(t + indent + "\"" + key + "\": ", Some(MapKey(key)), indent))
  {
    AppendAtEnd(Stream(t, |t|), indent + "\"" + key + "\"" + ": ");
    assert t + (indent + "\"" + key + "\"" + ": ") == t + indent + "\"" + key + "\": ";
  }

  /** A scalar: after an object its `",\n"` becomes `", "`; then the literal, `","`, and a line break after a key or a space otherwise. */
  lemma StepScalar(t: string, p: Option<Event>, indent: string, unit: string, e: Event)
    requires IsScalarEvent(e)
    requires p == Some(EndMap) ==> |t| >= 1
    ensures Step(At(t, p, indent), e, unit)
         == Success(At((if p == Some(EndMap) then t[..|t| - 1] + " " else t) + Literal(e)
                       + (if AfterKey(p) then ",\n" else ", "), Some(e), indent))
  {
    var t' := if p == Some(EndMap) then t[..|t| - 1] + " " else t;
    if p == Some(EndMap) {
      PatchAtEnd(t, 1, " ");
    }
    AppendAtEnd(Stream(t', |t'|), Literal(e) + ",");
    var sep := if AfterKey(p) then "\n" else " ";
    AppendAtEnd(Stream(t' + (Literal(e) + ","), |t' + (Literal(e) + ",")|), sep);
    assert t' + (Literal(e) + ",") + sep == t' + Literal(e) + (if AfterKey(p) then ",\n" else ", ");
  }

  // --------------------------------------------------- whole values at once

  /** Does the first event of `v` rewrite the last character the context left? */
  predicate Collapses(p: Option<Event>, v: Value) {
    if IsScalar(v) then p == Some(EndMap) else AfterClose(p)
  }

  function Collapsed(t: string, p: Option<Event>, v: Value): string
    requires Collapses(p, v) ==> |t| >= 1
  {
    if Collapses(p, v) then t[..|t| - 1] + " " else t
  }

  /** The speculative separator a value leaves: `", "` after an array item scalar, `",\n"` otherwise. */
  function Trail(v: Value): string {
    if IsScalar(v) then ", " else ",\n"
  }

  function TrailAfter(p: Option<Event>, v: Value): string {
    if AfterKey(p) then ",\n" else Trail(v)
  }

  /** Two runs back to back. */
  lemma RunThen(st: PrettyState, a: seq<Event>, b: seq<Event>, events: seq<Event>,
                mid: PrettyState, fin: PrettyState, unit: string)
    requires events == a + b
    requires Run(st, a, unit) == Success(mid)
    requires Run(mid, b, unit) == Success(fin)
    ensures Run(st, events, unit) == Success(fin)
  {
    RunAppend(st, a, b, unit);
  }

  /** A single event at the end of a state. */
  lemma RunStep(st: PrettyState, e: Event, unit: string, fin: PrettyState)
    requires Step(st, e, unit) == Success(fin)
    ensures Run(st, [e], unit) == Success(fin)
  {
    RunOne(st, e, unit);
  }

  // ------------------------------------------------ text of the layouts

  lemma ItemsOneText(xs: seq<Value>, unit: string, d: nat)
    requires |xs| == 1
    ensures PrettyItems(xs, unit, d) == Pretty(xs[0], unit, d)
    ensures Last(xs) == xs[0]
  {
  }

  lemma ItemsConsText(a: string, xs: seq<Value>, unit: string, d: nat)
    requires |xs| >= 2
    ensures a + Pretty(xs[0], unit, d) + ItemSep(xs[0], xs[1..][0]) + PrettyItems(xs[1..], unit, d)
         == a + PrettyItems(xs, unit, d)
    ensures Last(xs[1..]) == Last(xs)
  {
    var x, rest := xs[0], xs[1..];
    var b := ItemSep(x, rest[0]) + PrettyItems(rest, unit, d);
    assert PrettyItems(xs, unit, d) == Pretty(x, unit, d) + b by {
      assert |xs| != 1 && xs[1] == rest[0];
    }
    assert Last(rest) == rest[|rest| - 1] == xs[|xs| - 1];
  }

  lemma MembersOneText(ms: seq<Member>, unit: string, d: nat)
    requires |ms| == 1
    ensures PrettyMembers(ms, unit, d) == PrettyMember(ms[0], unit, d)
    ensures Last(ms) == ms[0]
  {
  }

  lemma MembersConsText(t: string, ms: seq<Member>, unit: string, d: nat)
    requires |ms| >= 2
    ensures t + PrettyMember(ms[0], unit, d) + ",\n" + PrettyMembers(ms[1..], unit, d) + ",\n"
         == t + PrettyMembers(ms, unit, d) + ",\n"
    ensures Last(ms[1..]) == Last(ms)
  {
    var m, rest := ms[0], ms[1..];
    assert PrettyMembers(ms, unit, d) == PrettyMember(m, unit, d) + ",\n" + PrettyMembers(rest, unit, d) by {
      assert |ms| != 1;
    }
    assert Last(rest) == rest[|rest| - 1] == ms[|ms| - 1];
  }

  lemma KeyText(t: string, m: Member, unit: string, d: nat)
    ensures t + Repeat(unit, d) + "\"" + m.key + "\": " + Pretty(m.value, unit, d) == t + PrettyMember(m, unit, d)
  {
  }

  /** Moving a closing bracket's separator out of the bracket's string. */
  lemma Regroup(c: string, x: string, y: string, z: string, w: string, tail: string)
    ensures c + x + y + z + (w + tail) == c + (x + y + z + w) + tail
  {
  }

  lemma ArrayText(c: string, xs: seq<Value>, unit: string, d: nat)
    requires xs != []
    ensures Last(xs).JObject? ==>
      c + "[" + PrettyItems(xs, unit, d + 1) + "\n" + Repeat(unit, d) + "],\n" == c + Pretty(JArray(xs), unit, d) + ",\n"
    ensures !Last(xs).JObject? ==>
      c + "[" + PrettyItems(xs, unit, d + 1) + "],\n" == c + Pretty(JArray(xs), unit, d) + ",\n"
  {
    var b := PrettyItems(xs, unit, d + 1);
    assert "]" + ",\n" == "],\n";
    if Last(xs).JObject? {
      var close := "\n" + Repeat(unit, d);
      assert Pretty(JArray(xs), unit, d) == "[" + b + close + "]";
      Regroup(c, "[", b, close, "]", ",\n");
      assert c + "[" + b + close == c + "[" + b + "\n" + Repeat(unit, d);
    } else {
      assert Pretty(JArray(xs), unit, d) == "[" + b + "" + "]";
      Regroup(c, "[", b, "", "]", ",\n");
      assert c + "[" + b + "" == c + "[" + b;
    }
  }

  lemma ObjectText(c: string, ms: seq<Member>, unit: string, d: nat)
    requires ms != []
    ensures c + "{\n" + PrettyMembers(ms, unit, d + 1) + "\n" + Repeat(unit, d) + "},\n" == c + Pretty(JObject(ms), unit, d) + ",\n"
  {
    var b := PrettyMembers(ms, unit, d + 1);
    var close := "\n" + Repeat(unit, d);
    assert "}" + ",\n" == "},\n";
    assert Pretty(JObject(ms), unit, d) == "{\n" + b + close + "}";
    Regroup(c, "{\n", b, close, "}", ",\n");
    assert c + "{\n" + b + close == c + "{\n" + b + "\n" + Repeat(unit, d);
  }

  lemma DropSeparator(a: string, sep: string)
    requires |sep| == 2
    ensures (a + sep)[..|a + sep| - 2] == a
  {
  }

  // --------------------------------------------------- whole values at once

  /**
   * Processing the events of `v` at depth `d` from a state at the end of
   * `t`: the context's last character may be collapsed, then `v`'s layout
   * and one separator follow; the indent is back where it was.
   */
  lemma {:induction false} ValueRun(v: Value, t: string, p: Option<Event>, unit: string, d: nat)
    requires Collapses(p, v) ==> |t| >= 1
    ensures Run(At(t, p, Repeat(unit, d)), EventsOf(v), unit)
         == Success(At(Collapsed(t, p, v) + Pretty(v, unit, d) + TrailAfter(p, v), Some(LastEvent(v)), Repeat(unit, d)))
    decreases v, 2
  {
    match v
    case JArray(xs) =>
      if xs == [] { EmptyArrayRun(t, p, unit, d); } else { ArrayRun(xs, t, p, unit, d); }
    case JObject(ms) =>
      if ms == [] { EmptyObjectRun(t, p, unit, d); } else { ObjectRun(ms, t, p, unit, d); }
    case _ => ScalarRun(v, t, p, unit, d);
  }

  lemma ScalarRun(v: Value, t: string, p: Option<Event>, unit: string, d: nat)
    requires IsScalar(v)
    requires Collapses(p, v) ==> |t| >= 1
    ensures Run(At(t, p, Repeat(unit, d)), EventsOf(v), unit)
         == Success(At(Collapsed(t, p, v) + Pretty(v, unit, d) + TrailAfter(p, v), Some(LastEvent(v)), Repeat(unit, d)))
  {
    var e := LastEvent(v);
    assert EventsOf(v) == [e] && IsScalarEvent(e);
    assert Literal(e) == ScalarText(v) == Pretty(v, unit, d);
    StepScalar(t, p, Repeat(unit, d), unit, e);
    RunStep(At(t, p, Repeat(unit, d)), e, unit,
            At(Collapsed(t, p, v) + Pretty(v, unit, d) + TrailAfter(p, v), Some(e), Repeat(unit, d)));
  }

  /** The opening bracket of a container one level below `d`. */
  lemma OpenRun(t: string, p: Option<Event>, unit: string, d: nat, e: Event)
    requires e == StartMap || e == StartArray
    requires AfterClose(p) ==> |t| >= 1
    ensures Run(At(t, p, Repeat(unit, d)), [e], unit)
         == Success(At((if AfterClose(p) then t[..|t| - 1] + " " else t) + (if e == StartMap then "{\n" else "["),
                       Some(e), Repeat(unit, d + 1)))
  {
    StepOpen(t, p, Repeat(unit, d), unit, e);
    RunStep(At(t, p, Repeat(unit, d)), e, unit,
            At((if AfterClose(p) then t[..|t| - 1] + " " else t) + (if e == StartMap then "{\n" else "["),
               Some(e), Repeat(unit, d + 1)));
  }

  lemma OpenArrayRun(xs: seq<Value>, t: string, p: Option<Event>, unit: string, d: nat)
    requires AfterClose(p) ==> |t| >= 1
    ensures Run(At(t, p, Repeat(unit, d)), [StartArray], unit)
         == Success(At(Collapsed(t, p, JArray(xs)) + "[", Some(StartArray), Repeat(unit, d + 1)))
  {
    OpenRun(t, p, unit, d, StartArray);
  }

  lemma OpenObjectRun(ms: seq<Member>, t: string, p: Option<Event>, unit: string, d: nat)
    requires AfterClose(p) ==> |t| >= 1
    ensures Run(At(t, p, Repeat(unit, d)), [StartMap], unit)
         == Success(At(Collapsed(t, p, JObject(ms)) + "{\n", Some(StartMap), Repeat(unit, d + 1)))
  {
    OpenRun(t, p, unit, d, StartMap);
  }

  lemma EmptyArrayRun(t: string, p: Option<Event>, unit: string, d: nat)
    requires AfterClose(p) ==> |t| >= 1
    ensures Run(At(t, p, Repeat(unit, d)), EventsOf(JArray([])), unit)
         == Success(At(Collapsed(t, p, JArray([])) + "[]" + ",\n", Some(EndArray), Repeat(unit, d)))
  {
    var c := Collapsed(t, p, JArray([]));
    var s1 := At(c + "[", Some(StartArray), Repeat(unit, d + 1));
    OpenRun(t, p, unit, d, StartArray);
    DedentAfterIndent(unit, d);
    StepCloseEmptyArray(c + "[", Repeat(unit, d + 1), unit);
    assert c + "[" + "],\n" == c + "[]" + ",\n";
    RunStep(s1, EndArray, unit, At(c + "[]" + ",\n", Some(EndArray), Repeat(unit, d)));
    RunThen(At(t, p, Repeat(unit, d)), [StartArray], [EndArray], EventsOf(JArray([])), s1,
            At(c + "[]" + ",\n", Some(EndArray), Repeat(unit, d)), unit);
  }

  lemma EmptyObjectRun(t: string, p: Option<Event>, unit: string, d: nat)
    requires AfterClose(p) ==> |t| >= 1
    ensures Run(At(t, p, Repeat(unit, d)), EventsOf(JObject([])), unit)
         == Success(At(Collapsed(t, p, JObject([])) + "{}" + ",\n", Some(EndMap), Repeat(unit, d)))
  {
    var c := Collapsed(t, p, JObject([]));
    var s1 := At(c + "{\n", Some(StartMap), Repeat(unit, d + 1));
    OpenRun(t, p, unit, d, StartMap);
    DedentAfterIndent(unit, d);
    StepCloseEmptyMap(c + "{\n", Repeat(unit, d + 1), unit);
    assert (c + "{\n")[..|c + "{\n"| - 1] + "},\n" == c + "{}" + ",\n";
    RunStep(s1, EndMap, unit, At(c + "{}" + ",\n", Some(EndMap), Repeat(unit, d)));
    RunThen(At(t, p, Repeat(unit, d)), [StartMap], [EndMap], EventsOf(JObject([])), s1,
            At(c + "{}" + ",\n", Some(EndMap), Repeat(unit, d)), unit);
  }

  /** The closing bracket of a non-empty array. */
  lemma CloseArrayRun(c: string, xs: seq<Value>, unit: string, d: nat)
    requires xs != []
    ensures Run(At(c + "[" + PrettyItems(xs, unit, d + 1) + Trail(Last(xs)), Some(LastEvent(Last(xs))), Repeat(unit, d + 1)),
                [EndArray], unit)
         == Success(At(c + Pretty(JArray(xs), unit, d) + ",\n", Some(EndArray), Repeat(unit, d)))
  {
    var a := c + "[" + PrettyItems(xs, unit, d + 1);
    var t2 := a + Trail(Last(xs));
    var inner := Repeat(unit, d + 1);
    DropSeparator(a, Trail(Last(xs)));
    DedentAfterIndent(unit, d);
    ArrayText(c, xs, unit, d);
    if Last(xs).JObject? {
      StepCloseArrayAfterMap(t2, inner, unit);
    } else {
      StepCloseArray(t2, Some(LastEvent(Last(xs))), inner, unit);
    }
    RunStep(At(t2, Some(LastEvent(Last(xs))), inner), EndArray, unit,
            At(c + Pretty(JArray(xs), unit, d) + ",\n", Some(EndArray), Repeat(unit, d)));
  }

  /** The closing brace of a non-empty object. */
  lemma CloseObjectRun(c: string, ms: seq<Member>, unit: string, d: nat)
    requires ms != []
    ensures Run(At(c + "{\n" + PrettyMembers(ms, unit, d + 1) + ",\n", Some(LastEvent(Last(ms).value)), Repeat(unit, d + 1)),
                [EndMap], unit)
         == Success(At(c + Pretty(JObject(ms), unit, d) + ",\n", Some(EndMap), Repeat(unit, d)))
  {
    var a := c + "{\n" + PrettyMembers(ms, unit, d + 1);
    var inner := Repeat(unit, d + 1);
    DropSeparator(a, ",\n");
    DedentAfterIndent(unit, d);
    ObjectText(c, ms, unit, d);
    StepCloseMap(a + ",\n", Some(LastEvent(Last(ms).value)), inner, unit);
    RunStep(At(a + ",\n", Some(LastEvent(Last(ms).value)), inner), EndMap, unit,
            At(c + Pretty(JObject(ms), unit, d) + ",\n", Some(EndMap), Repeat(unit, d)));
  }

  lemma {:induction false} ArrayRun(xs: seq<Value>, t: string, p: Option<Event>, unit: string, d: nat)
    requires xs != []
    requires AfterClose(p) ==> |t| >= 1
    ensures Run(At(t, p, Repeat(unit, d)), EventsOf(JArray(xs)), unit)
         == Success(At(Collapsed(t, p, JArray(xs)) + Pretty(JArray(xs), unit, d) + ",\n", Some(EndArray), Repeat(unit, d)))
    decreases xs, 2
  {
    var st := At(t, p, Repeat(unit, d));
    var c := Collapsed(t, p, JArray(xs));
    var s1 := At(c + "[", Some(StartArray), Repeat(unit, d + 1));
    var s2 := At(c + "[" + PrettyItems(xs, unit, d + 1) + Trail(Last(xs)), Some(LastEvent(Last(xs))), Repeat(unit, d + 1));
    var fin := At(c + Pretty(JArray(xs), unit, d) + ",\n", Some(EndArray), Repeat(unit, d));
    OpenArrayRun(xs, t, p, unit, d);
    ItemsRun(xs, c + "[", unit, d + 1);
    CloseArrayRun(c, xs, unit, d);
    RunThen(st, [StartArray], ItemsEvents(xs), [StartArray] + ItemsEvents(xs), s1, s2, unit);
    RunThen(st, [StartArray] + ItemsEvents(xs), [EndArray], EventsOf(JArray(xs)), s2, fin, unit);
  }

  lemma {:induction false} ObjectRun(ms: seq<Member>, t: string, p: Option<Event>, unit: string, d: nat)
    requires ms != []
    requires AfterClose(p) ==> |t| >= 1
    ensures Run(At(t, p, Repeat(unit, d)), EventsOf(JObject(ms)), unit)
         == Success(At(Collapsed(t, p, JObject(ms)) + Pretty(JObject(ms), unit, d) + ",\n", Some(EndMap), Repeat(unit, d)))
    decreases ms, 2
  {
    var st := At(t, p, Repeat(unit, d));
    var c := Collapsed(t, p, JObject(ms));
    var s1 := At(c + "{\n", Some(StartMap), Repeat(unit, d + 1));
    var s2 := At(c + "{\n" + PrettyMembers(ms, unit, d + 1) + ",\n", Some(LastEvent(Last(ms).value)), Repeat(unit, d + 1));
    var fin := At(c + Pretty(JObject(ms), unit, d) + ",\n", Some(EndMap), Repeat(unit, d));
    OpenObjectRun(ms, t, p, unit, d);
    MembersRun(ms, c + "{\n", Some(StartMap), unit, d + 1);
    CloseObjectRun(c, ms, unit, d);
    RunThen(st, [StartMap], MembersEvents(ms), [StartMap] + MembersEvents(ms), s1, s2, unit);
    RunThen(st, [StartMap] + MembersEvents(ms), [EndMap], EventsOf(JObject(ms)), s2, fin, unit);
  }

  /** An array item after the separator its predecessor `y` left. */
  lemma {:induction false} ItemAfter(y: Value, x: Value, a: string, unit: string, d: nat)
    ensures Run(At(a + Trail(y), Some(LastEvent(y)), Repeat(unit, d)), EventsOf(x), unit)
         == Success(At(a + ItemSep(y, x) + Pretty(x, unit, d) + Trail(x), Some(LastEvent(x)), Repeat(unit, d)))
    decreases x, 3
  {
    CollapsedTrail(a, y, x);
    ValueRun(x, a + Trail(y), Some(LastEvent(y)), unit, d);
  }

  /** The first array item, right after `"["`. */
  lemma {:induction false} ItemFirst(x: Value, t: string, unit: string, d: nat)
    ensures Run(At(t, Some(StartArray), Repeat(unit, d)), EventsOf(x), unit)
         == Success(At(t + Pretty(x, unit, d) + Trail(x), Some(LastEvent(x)), Repeat(unit, d)))
    decreases x, 3
  {
    ValueRun(x, t, Some(StartArray), unit, d);
  }

  /** The items of a non-empty array, the first one right after `"["`. */
  lemma {:induction false} ItemsRun(xs: seq<Value>, t: string, unit: string, d: nat)
    requires xs != []
    ensures Run(At(t, Some(StartArray), Repeat(unit, d)), ItemsEvents(xs), unit)
         == Success(At(t + PrettyItems(xs, unit, d) + Trail(Last(xs)), Some(LastEvent(Last(xs))), Repeat(unit, d)))
    decreases xs, 1
  {
    var x := xs[0];
    ItemFirst(x, t, unit, d);
    if |xs| == 1 {
      ItemsOneText(xs, unit, d);
      assert ItemsEvents(xs) == EventsOf(x) + ItemsEvents(xs[1..]);
      assert ItemsEvents(xs[1..]) == [];
      assert ItemsEvents(xs) == EventsOf(x);
    } else {
      var a := t + Pretty(x, unit, d);
      var s1 := At(a + Trail(x), Some(LastEvent(x)), Repeat(unit, d));
      var fin := At(t + PrettyItems(xs, unit, d) + Trail(Last(xs)), Some(LastEvent(Last(xs))), Repeat(unit, d));
      ItemsTail(x, xs[1..], a, unit, d);
      ItemsConsText(t, xs, unit, d);
      RunThen(At(t, Some(StartArray), Repeat(unit, d)), EventsOf(x), ItemsEvents(xs[1..]), ItemsEvents(xs), s1, fin, unit);
    }
  }

  /** After an item `y`, its separator is what `ItemSep` puts between `y` and the next item. */
  lemma CollapsedTrail(a: string, y: Value, x: Value)
    ensures Collapses(Some(LastEvent(y)), x) ==> |a + Trail(y)| >= 1
    ensures Collapsed(a + Trail(y), Some(LastEvent(y)), x) == a + ItemSep(y, x)
    ensures TrailAfter(Some(LastEvent(y)), x) == Trail(x)
  {
    var t := a + Trail(y);
    if Collapses(Some(LastEvent(y)), x) {
      assert t[..|t| - 1] == a + ",";
    }
  }

  /** The items after item `y`, whose separator is still in the buffer. */
  lemma {:induction false} ItemsTail(y: Value, xs: seq<Value>, a: string, unit: string, d: nat)
    requires xs != []
    ensures Run(At(a + Trail(y), Some(LastEvent(y)), Repeat(unit, d)), ItemsEvents(xs), unit)
         == Success(At(a + ItemSep(y, xs[0]) + PrettyItems(xs, unit, d) + Trail(Last(xs)),
                       Some(LastEvent(Last(xs))), Repeat(unit, d)))
    decreases xs, 1
  {
    var x := xs[0];
    ItemAfter(y, x, a, unit, d);
    if |xs| == 1 {
      ItemsOneText(xs, unit, d);
      assert ItemsEvents(xs) == EventsOf(x) + ItemsEvents(xs[1..]);
      assert ItemsEvents(xs[1..]) == [];
      assert ItemsEvents(xs) == EventsOf(x);
    } else {
      var a1 := a + ItemSep(y, x) + Pretty(x, unit, d);
      var s1 := At(a1 + Trail(x), Some(LastEvent(x)), Repeat(unit, d));
      var fin := At(a + ItemSep(y, x) + PrettyItems(xs, unit, d) + Trail(Last(xs)), Some(LastEvent(Last(xs))), Repeat(unit, d));
      ItemsTail(x, xs[1..], a1, unit, d);
      ItemsConsText(a + ItemSep(y, x), xs, unit, d);
      RunThen(At(a + Trail(y), Some(LastEvent(y)), Repeat(unit, d)), EventsOf(x), ItemsEvents(xs[1..]), ItemsEvents(xs), s1, fin, unit);
    }
  }

  /** One member: its key line and its value, followed by the value's `",\n"`. */
  lemma {:induction false} MemberRun(m: Member, t: string, p: Option<Event>, unit: string, d: nat)
    ensures Run(At(t, p, Repeat(unit, d)), [MapKey(m.key)] + EventsOf(m.value), unit)
         == Success(At(t + PrettyMember(m, unit, d) + ",\n", Some(LastEvent(m.value)), Repeat(unit, d)))
    decreases m, 3
  {
    var t1 := t + Repeat(unit, d) + "\"" + m.key + "\": ";
    var s1 := At(t1, Some(MapKey(m.key)), Repeat(unit, d));
    StepKey(t, p, Repeat(unit, d), unit, m.key);
    RunStep(At(t, p, Repeat(unit, d)), MapKey(m.key), unit, s1);
    ValueRun(m.value, t1, Some(MapKey(m.key)), unit, d);
    KeyText(t, m, unit, d);
    RunThen(At(t, p, Repeat(unit, d)), [MapKey(m.key)], EventsOf(m.value), [MapKey(m.key)] + EventsOf(m.value), s1,
            At(t + PrettyMember(m, unit, d) + ",\n", Some(LastEvent(m.value)), Repeat(unit, d)), unit);
  }

  /** The members of a non-empty object: each one is written and followed by `",\n"`. */
  lemma {:induction false} MembersRun(ms: seq<Member>, t: string, p: Option<Event>, unit: string, d: nat)
    requires ms != []
    ensures Run(At(t, p, Repeat(unit, d)), MembersEvents(ms), unit)
         == Success(At(t + PrettyMembers(ms, unit, d) + ",\n", Some(LastEvent(Last(ms).value)), Repeat(unit, d)))
    decreases ms, 1
  {
    var m := ms[0];
    MemberRun(m, t, p, unit, d);
    assert MembersEvents(ms) == [MapKey(m.key)] + EventsOf(m.value) + MembersEvents(ms[1..]);
    if |ms| == 1 {
      MembersOneText(ms, unit, d);
      assert MembersEvents(ms[1..]) == [];
      assert MembersEvents(ms) == [MapKey(m.key)] + EventsOf(m.value);
    } else {
      var t2 := t + PrettyMember(m, unit, d) + ",\n";
      var s2 := At(t2, Some(LastEvent(m.value)), Repeat(unit, d));
      var fin := At(t + PrettyMembers(ms, unit, d) + ",\n", Some(LastEvent(Last(ms).value)), Repeat(unit, d));
      MembersRun(ms[1..], t2, Some(LastEvent(m.value)), unit, d);
      MembersConsText(t, ms, unit, d);
      RunThen(At(t, p, Repeat(unit, d)), [MapKey(m.key)] + EventsOf(m.value), MembersEvents(ms[1..]), MembersEvents(ms),
              s2, fin, unit);
    }
  }

  // ------------------------------------------------------------- theorems

  /**
   * Before the final trim, the buffer holds the layout of the document and
   * exactly one speculative separator: `", "` after a lone scalar, `",\n"`
   * after a container.
   */
  lemma {:induction false} RunLeavesOneSeparator(v: Value, unit: string)
    ensures Run(Start, EventsOf(v), unit)
         == Success(At(Pretty(v, unit, 0) + Trail(v), Some(LastEvent(v)), ""))
    ensures |Trail(v)| == 2 && Trail(v)[0] == ','
  {
    assert Start == At("", None, Repeat(unit, 0));
    ValueRun(v, "", None, unit, 0);
    assert "" + Pretty(v, unit, 0) == Pretty(v, unit, 0);
  }

  /** For every document, `process` returns exactly the pretty layout of the document. */
  lemma {:induction false} FormatIsLayout(v: Value, unit: string)
    ensures Format(EventsOf(v), unit) == Success(Pretty(v, unit, 0))
  {
    RunLeavesOneSeparator(v, unit);
    var t := Pretty(v, unit, 0) + Trail(v);
    TrimEnd(Stream(t, |t|), 2);
    assert t[..|t| - 2] == Pretty(v, unit, 0);
  }

  lemma FormatDocuments(events: seq<Event>, unit: string)
    ensures forall v :: events == EventsOf(v) ==> Format(events, unit) == Success(Pretty(v, unit, 0))
    ensures WellFormed(events) ==> Format(events, unit).Success?
  {
    forall v | events == EventsOf(v) ensures Format(events, unit) == Success(Pretty(v, unit, 0)) {
      FormatIsLayout(v, unit);
    }
  }
}
