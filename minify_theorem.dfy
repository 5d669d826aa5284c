/**
 * The minify machine against the tree layout: fed the events of a document,
 * the loop leaves `Layout.Compact` of that document followed by one
 * speculative `","`, which the final trim removes.
 */
module MinifyTheorem {
  import opened Wrappers
  import opened StringIO
  import opened Ijson
  import opened Output
  import opened Json
  import opened Layout
  import opened MinifyMachine

  /** A state whose cursor is at the end of `text`. */
  function At(text: string, prev: Option<Event>): MinifyState {
    MinifyState(Stream(text, |text|), prev)
  }

  // ------------------------------------------------- single steps at the end

  lemma RunStep(st: MinifyState, e: Event, fin: MinifyState)
    requires Step(st, e) == Success(fin)
    ensures Run(st, [e]) == Success(fin)
  {
    assert [e][0] == e && [e][1..] == [];
    assert Run(fin, []) == Success(fin);
  }

  lemma RunThen(st: MinifyState, a: seq<Event>, b: seq<Event>, events: seq<Event>, mid: MinifyState, fin: MinifyState)
    requires events == a + b
    requires Run(st, a) == Success(mid)
    requires Run(mid, b) == Success(fin)
    ensures Run(st, events) == Success(fin)
  {
    RunAppend(st, a, b);
  }

  lemma StepAppend(t: string, p: Option<Event>, e: Event, s: string)
    requires e == StartMap || e == StartArray || e.MapKey? || IsScalarEvent(e)
    requires s == match e
                  case StartMap => "{"
                  case StartArray => "["
                  case MapKey(k) => "\"" + k + "\"" + ":"
                  case _ => Literal(e) + ","
    ensures Run(At(t, p), [e]) == Success(At(t + s, Some(e)))
  {
    AppendAtEnd(Stream(t, |t|), s);
    RunStep(At(t, p), e, At(t + s, Some(e)));
  }

  /** A bracket closing an empty container goes right after the opening one. */
  lemma StepCloseEmpty(t: string, e: Event)
    requires e == EndMap || e == EndArray
    ensures Run(At(t, Some(if e == EndMap then StartMap else StartArray)), [e])
         == Success(At(t + (if e == EndMap then "}," else "],"), Some(e)))
  {
    AppendAtEnd(Stream(t, |t|), if e == EndMap then "}," else "],");
    RunStep(At(t, Some(if e == EndMap then StartMap else StartArray)), e,
            At(t + (if e == EndMap then "}," else "],"), Some(e)));
  }

  /** A bracket closing a non-empty container overwrites the last item's `","`. */
  lemma StepClose(a: string, p: Option<Event>, e: Event)
    requires e == EndMap || e == EndArray
    requires p.Some? && p != Some(StartMap) && p != Some(StartArray)
    ensures Run(At(a + ",", p), [e]) == Success(At(a + (if e == EndMap then "}," else "],"), Some(e)))
  {
    var t := a + ",";
    var s := if e == EndMap then "}," else "],";
    BackPatch(Stream(t, |t|), 1, s);
    assert t[..|t| - 1] == a;
    RunStep(At(t, p), e, At(a + s, Some(e)));
  }

  /** A value's last event is never an opening bracket. */
  lemma LastIsNotOpen(v: Value)
    ensures LastEvent(v) != StartMap && LastEvent(v) != StartArray
  {
  }

  // --------------------------------------------------------------- texts

  lemma Regroup(t: string, a: string, sep: string, b: string, tail: string)
    ensures t + a + sep + b + tail == t + (a + (sep + b)) + tail
  {
  }

  lemma ItemsText(t: string, xs: seq<Value>)
    requires |xs| >= 2
    ensures t + Compact(xs[0]) + "," + CompactItems(xs[1..]) + "," == t + CompactItems(xs) + ","
    ensures Last(xs[1..]) == Last(xs)
  {
    var x, rest := xs[0], xs[1..];
    assert CompactItems(xs) == Compact(x) + ("," + CompactItems(rest)) by {
      assert |xs| != 1;
    }
    Regroup(t, Compact(x), ",", CompactItems(rest), ",");
    assert Last(rest) == rest[|rest| - 1] == xs[|xs| - 1];
  }

  lemma MembersText(t: string, ms: seq<Member>)
    requires |ms| >= 2
    ensures t + CompactMember(ms[0]) + "," + CompactMembers(ms[1..]) + "," == t + CompactMembers(ms) + ","
    ensures Last(ms[1..]) == Last(ms)
  {
    var m, rest := ms[0], ms[1..];
    assert CompactMembers(ms) == CompactMember(m) + ("," + CompactMembers(rest)) by {
      assert |ms| != 1;
    }
    Regroup(t, CompactMember(m), ",", CompactMembers(rest), ",");
    assert Last(rest) == rest[|rest| - 1] == ms[|ms| - 1];
  }

  lemma MemberText(t: string, m: Member)
    ensures t + ("\"" + m.key + "\"" + ":") + Compact(m.value) == t + CompactMember(m)
  {
  }

  /** A closing bracket and its `","` after the opening bracket and the body. */
  lemma BracketText(t: string, open: string, body: string, close: string, closed: string, whole: string)
    requires whole == open + body + close
    requires closed == close + ","
    ensures t + open + body + closed == t + whole + ","
  {
  }

  lemma EmptyText(t: string, open: string, close: string, closed: string, whole: string)
    requires whole == open + close
    requires closed == close + ","
    ensures t + open + closed == t + whole + ","
  {
  }

  // --------------------------------------------------- whole values at once

  /** The events of `v`, from a state at the end of `t`, append `v`'s compact layout and a `","`. */
  lemma {:induction false} ValueRun(v: Value, t: string, p: Option<Event>)
    ensures Run(At(t, p), EventsOf(v)) == Success(At(t + Compact(v) + ",", Some(LastEvent(v))))
    decreases v, 2
  {
    match v
    case JArray(xs) =>
      if xs == [] { EmptyRun(v, t, p); } else { ArrayRun(xs, t, p); }
    case JObject(ms) =>
      if ms == [] { EmptyRun(v, t, p); } else { ObjectRun(ms, t, p); }
    case _ =>
      var e := LastEvent(v);
      assert EventsOf(v) == [e] && IsScalarEvent(e);
      assert Literal(e) == ScalarText(v) == Compact(v);
      StepAppend(t, p, e, Literal(e) + ",");
      assert t + (Compact(v) + ",") == t + Compact(v) + ",";
  }

  lemma EmptyRun(v: Value, t: string, p: Option<Event>)
    requires v == JArray([]) || v == JObject([])
    ensures Run(At(t, p), EventsOf(v)) == Success(At(t + Compact(v) + ",", Some(LastEvent(v))))
  {
    var isMap := v.JObject?;
    var open, close := if isMap then StartMap else StartArray, if isMap then EndMap else EndArray;
    var o := if isMap then "{" else "[";
    StepAppend(t, p, open, o);
    StepCloseEmpty(t + o, close);
    EmptyText(t, o, if isMap then "}" else "]", if isMap then "}," else "],", Compact(v));
    RunThen(At(t, p), [open], [close], EventsOf(v), At(t + o, Some(open)), At(t + Compact(v) + ",", Some(close)));
  }

  lemma {:induction false} ArrayRun(xs: seq<Value>, t: string, p: Option<Event>)
    requires xs != []
    ensures Run(At(t, p), EventsOf(JArray(xs))) == Success(At(t + Compact(JArray(xs)) + ",", Some(EndArray)))
    decreases xs, 2
  {
    var s1 := At(t + "[", Some(StartArray));
    var body := CompactItems(xs);
    var s2 := At(t + "[" + body + ",", Some(LastEvent(Last(xs))));
    var fin := At(t + Compact(JArray(xs)) + ",", Some(EndArray));
    StepAppend(t, p, StartArray, "[");
    ItemsRun(xs, t + "[", Some(StartArray));
    LastIsNotOpen(Last(xs));
    StepClose(t + "[" + body, Some(LastEvent(Last(xs))), EndArray);
    BracketText(t, "[", body, "]", "],", Compact(JArray(xs)));
    RunThen(At(t, p), [StartArray], ItemsEvents(xs), [StartArray] + ItemsEvents(xs), s1, s2);
    RunThen(At(t, p), [StartArray] + ItemsEvents(xs), [EndArray], EventsOf(JArray(xs)), s2, fin);
  }

  lemma {:induction false} ObjectRun(ms: seq<Member>, t: string, p: Option<Event>)
    requires ms != []
    ensures Run(At(t, p), EventsOf(JObject(ms))) == Success(At(t + Compact(JObject(ms)) + ",", Some(EndMap)))
    decreases ms, 2
  {
    var s1 := At(t + "{", Some(StartMap));
    var body := CompactMembers(ms);
    var s2 := At(t + "{" + body + ",", Some(LastEvent(Last(ms).value)));
    var fin := At(t + Compact(JObject(ms)) + ",", Some(EndMap));
    StepAppend(t, p, StartMap, "{");
    MembersRun(ms, t + "{", Some(StartMap));
    LastIsNotOpen(Last(ms).value);
    StepClose(t + "{" + body, Some(LastEvent(Last(ms).value)), EndMap);
    BracketText(t, "{", body, "}", "},", Compact(JObject(ms)));
    RunThen(At(t, p), [StartMap], MembersEvents(ms), [StartMap] + MembersEvents(ms), s1, s2);
    RunThen(At(t, p), [StartMap] + MembersEvents(ms), [EndMap], EventsOf(JObject(ms)), s2, fin);
  }

  lemma {:induction false} ItemsRun(xs: seq<Value>, t: string, p: Option<Event>)
    requires xs != []
    ensures Run(At(t, p), ItemsEvents(xs)) == Success(At(t + CompactItems(xs) + ",", Some(LastEvent(Last(xs)))))
    decreases xs, 1
  {
    var x := xs[0];
    ValueRun(x, t, p);
    assert ItemsEvents(xs) == EventsOf(x) + ItemsEvents(xs[1..]);
    if |xs| == 1 {
      assert ItemsEvents(xs[1..]) == [];
      assert ItemsEvents(xs) == EventsOf(x);
      assert CompactItems(xs) == Compact(x) && Last(xs) == x;
    } else {
      var t1 := t + Compact(x) + ",";
      ItemsRun(xs[1..], t1, Some(LastEvent(x)));
      ItemsText(t, xs);
      RunThen(At(t, p), EventsOf(x), ItemsEvents(xs[1..]), ItemsEvents(xs), At(t1, Some(LastEvent(x))),
              At(t + CompactItems(xs) + ",", Some(LastEvent(Last(xs)))));
    }
  }

  lemma {:induction false} MemberRun(m: Member, t: string, p: Option<Event>)
    ensures Run(At(t, p), [MapKey(m.key)] + EventsOf(m.value))
         == Success(At(t + CompactMember(m) + ",", Some(LastEvent(m.value))))
    decreases m, 3
  {
    var k := "\"" + m.key + "\"" + ":";
    StepAppend(t, p, MapKey(m.key), k);
    ValueRun(m.value, t + k, Some(MapKey(m.key)));
    MemberText(t, m);
    RunThen(At(t, p), [MapKey(m.key)], EventsOf(m.value), [MapKey(m.key)] + EventsOf(m.value),
            At(t + k, Some(MapKey(m.key))), At(t + CompactMember(m) + ",", Some(LastEvent(m.value))));
  }

  lemma {:induction false} MembersRun(ms: seq<Member>, t: string, p: Option<Event>)
    requires ms != []
    ensures Run(At(t, p), MembersEvents(ms)) == Success(At(t + CompactMembers(ms) + ",", Some(LastEvent(Last(ms).value))))
    decreases ms, 1
  {
    var m := ms[0];
    MemberRun(m, t, p);
    assert MembersEvents(ms) == [MapKey(m.key)] + EventsOf(m.value) + MembersEvents(ms[1..]);
    if |ms| == 1 {
      assert MembersEvents(ms[1..]) == [];
      assert MembersEvents(ms) == [MapKey(m.key)] + EventsOf(m.value);
      assert CompactMembers(ms) == CompactMember(m) && Last(ms) == m;
    } else {
      var t1 := t + CompactMember(m) + ",";
      MembersRun(ms[1..], t1, Some(LastEvent(m.value)));
      MembersText(t, ms);
      RunThen(At(t, p), [MapKey(m.key)] + EventsOf(m.value), MembersEvents(ms[1..]), MembersEvents(ms),
              At(t1, Some(LastEvent(m.value))), At(t + CompactMembers(ms) + ",", Some(LastEvent(Last(ms).value))));
    }
  }

  // ------------------------------------------------------------- theorems

  /** Before the final trim, the buffer holds the compact layout of the document and one `","`. */
  lemma RunLeavesOneComma(v: Value)
    ensures Run(Start, EventsOf(v)) == Success(At(Compact(v) + ",", Some(LastEvent(v))))
  {
    ValueRun(v, "", None);
    assert "" + Compact(v) == Compact(v);
  }

  /** For every document, `process` returns exactly the compact layout of the document. */
  lemma FormatIsCompact(v: Value)
    ensures Format(EventsOf(v)) == Success(Compact(v))
  {
    RunLeavesOneComma(v);
    var t := Compact(v) + ",";
    TrimEnd(Stream(t, |t|), 1);
    assert t[..|t| - 1] == Compact(v);
  }

  lemma FormatDocuments(events: seq<Event>)
    ensures forall v :: events == EventsOf(v) ==> Format(events) == Success(Compact(v))
    ensures WellFormed(events) ==> Format(events).Success?
  {
    forall v | events == EventsOf(v) ensures Format(events) == Success(Compact(v)) {
      FormatIsCompact(v);
    }
  }
}
