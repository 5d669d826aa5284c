/**
 * Concrete documents and what each command makes of their event streams,
 * derived from the layout theorems. Each text step is a lemma of its own,
 * so that no proof has to evaluate a whole layout on literals at once.
 */
module Scenarios {
  import opened Wrappers
  import opened Ijson
  import opened Json
  import opened Layout
  import PrettyMachine
  import MinifyMachine
  import PrettyTheorem
  import MinifyTheorem
  import Failures

  // ------------------------------------------------- shapes, on any value

  /** A two-member object, given the layout of each member. */
  lemma TwoMemberPretty(a: Member, b: Member, unit: string, ta: string, tb: string)
    requires PrettyMember(a, unit, 1) == ta && PrettyMember(b, unit, 1) == tb
    ensures Pretty(JObject([a, b]), unit, 0) == "{\n" + ta + ",\n" + tb + "\n" + Repeat(unit, 0) + "}"
  {
    assert [a, b][1..] == [b];
    assert PrettyMembers([b], unit, 1) == tb;
  }

  lemma TwoMemberCompact(a: Member, b: Member, ca: string, cb: string)
    requires CompactMember(a) == ca && CompactMember(b) == cb
    ensures Compact(JObject([a, b])) == "{" + ca + "," + cb + "}"
  {
    assert [a, b][1..] == [b];
    assert CompactMembers([b]) == cb;
  }

  lemma TwoSpaces()
    ensures PrettyMachine.IndentUnit(PrettyMachine.Width(2)) == "  "
    ensures Repeat("  ", 0) == "" && Repeat("  ", 1) == "  " && Repeat("  ", 2) == "    "
  {
    var u := PrettyMachine.IndentUnit(PrettyMachine.Width(2));
    assert u[0] == ' ' && u[1] == ' ';
  }

  // ------------------------------------------- {"a": 1, "b": [1, 2, 3]}

  function ObjectWithArray(): Value {
    JObject([Member("a", JNumber("1")), Member("b", JArray([JNumber("1"), JNumber("2"), JNumber("3")]))])
  }

  lemma OneTwoThreeText()
    ensures PrettyItems([JNumber("1"), JNumber("2"), JNumber("3")], "  ", 2) == "1, 2, 3"
    ensures CompactItems([JNumber("1"), JNumber("2"), JNumber("3")]) == "1,2,3"
  {
    var xs := [JNumber("1"), JNumber("2"), JNumber("3")];
    assert xs[1..] == [JNumber("2"), JNumber("3")];
    assert xs[1..][1..] == [JNumber("3")];
  }

  lemma FirstMemberText()
    ensures PrettyMember(ObjectWithArray().members[0], "  ", 1) == "  \"a\": 1"
  {
    TwoSpaces();
  }

  lemma SecondMemberText()
    ensures PrettyMember(ObjectWithArray().members[1], "  ", 1) == "  \"b\": [1, 2, 3]"
  {
    TwoSpaces();
    OneTwoThreeText();
  }

  lemma CompactMemberText()
    ensures CompactMember(ObjectWithArray().members[0]) == "\"a\":1"
    ensures CompactMember(ObjectWithArray().members[1]) == "\"b\":[1,2,3]"
  {
    OneTwoThreeText();
  }

  lemma ObjectWithArrayPieces()
    ensures "{\n" + "  \"a\": 1" + ",\n" + "  \"b\": [1, 2, 3]" + "\n" + "" + "}" == "{\n  \"a\": 1,\n  \"b\": [1, 2, 3]\n}"
    ensures "{" + "\"a\":1" + "," + "\"b\":[1,2,3]" + "}" == "{\"a\":1,\"b\":[1,2,3]}"
  {
  }

  lemma ObjectWithArrayPrettyText()
    ensures Pretty(ObjectWithArray(), "  ", 0) == "{\n  \"a\": 1,\n  \"b\": [1, 2, 3]\n}"
  {
    var ms := ObjectWithArray().members;
    FirstMemberText();
    SecondMemberText();
    TwoMemberPretty(ms[0], ms[1], "  ", "  \"a\": 1", "  \"b\": [1, 2, 3]");
    TwoSpaces();
    ObjectWithArrayPieces();
  }

  lemma ObjectWithArrayCompactText()
    ensures Compact(ObjectWithArray()) == "{\"a\":1,\"b\":[1,2,3]}"
  {
    var ms := ObjectWithArray().members;
    CompactMemberText();
    TwoMemberCompact(ms[0], ms[1], "\"a\":1", "\"b\":[1,2,3]");
    ObjectWithArrayPieces();
  }

  /** Object members one per line at two spaces, the array's items inline. */
  lemma ObjectWithArrayPretty()
    ensures PrettyMachine.Format(EventsOf(ObjectWithArray()), PrettyMachine.IndentUnit(PrettyMachine.Width(2)))
         == Success("{\n  \"a\": 1,\n  \"b\": [1, 2, 3]\n}")
  {
    TwoSpaces();
    PrettyTheorem.FormatIsLayout(ObjectWithArray(), "  ");
    ObjectWithArrayPrettyText();
  }

  lemma ObjectWithArrayMinify()
    ensures MinifyMachine.Format(EventsOf(ObjectWithArray())) == Success("{\"a\":1,\"b\":[1,2,3]}")
  {
    MinifyTheorem.FormatIsCompact(ObjectWithArray());
    ObjectWithArrayCompactText();
  }

  // ------------------------------------------------------ {} and []

  /** An empty object comes out as `{}` in both modes, whatever the indent. */
  lemma EmptyObject(unit: string)
    ensures PrettyMachine.Format(EventsOf(JObject([])), unit) == Success("{}")
    ensures MinifyMachine.Format(EventsOf(JObject([]))) == Success("{}")
  {
    PrettyTheorem.FormatIsLayout(JObject([]), unit);
    MinifyTheorem.FormatIsCompact(JObject([]));
    assert CompactMembers([]) == "";
    assert "{" + "" + "}" == "{}";
  }

  /** An empty array comes out as `[]` in both modes, whatever the indent. */
  lemma EmptyArray(unit: string)
    ensures PrettyMachine.Format(EventsOf(JArray([])), unit) == Success("[]")
    ensures MinifyMachine.Format(EventsOf(JArray([]))) == Success("[]")
  {
    PrettyTheorem.FormatIsLayout(JArray([]), unit);
    MinifyTheorem.FormatIsCompact(JArray([]));
    assert CompactItems([]) == "";
    assert "[" + "" + "]" == "[]";
  }

  // ------------------------------------------- {"x": 1.50, "y": "a\"b"}

  function Verbatim(): Value {
    JObject([Member("x", JNumber("1.50")), Member("y", JString("a\\\"b"))])
  }

  lemma VerbatimMemberText()
    ensures PrettyMember(Verbatim().members[0], "  ", 1) == "  \"x\": 1.50"
    ensures PrettyMember(Verbatim().members[1], "  ", 1) == "  \"y\": \"a\\\"b\""
  {
    TwoSpaces();
  }

  lemma VerbatimCompactMemberText()
    ensures CompactMember(Verbatim().members[0]) == "\"x\":1.50"
    ensures CompactMember(Verbatim().members[1]) == "\"y\":\"a\\\"b\""
  {
  }

  lemma VerbatimPieces()
    ensures "{\n" + "  \"x\": 1.50" + ",\n" + "  \"y\": \"a\\\"b\"" + "\n" + "" + "}" == "{\n  \"x\": 1.50,\n  \"y\": \"a\\\"b\"\n}"
    ensures "{" + "\"x\":1.50" + "," + "\"y\":\"a\\\"b\"" + "}" == "{\"x\":1.50,\"y\":\"a\\\"b\"}"
  {
  }

  lemma VerbatimPrettyText()
    ensures Pretty(Verbatim(), "  ", 0) == "{\n  \"x\": 1.50,\n  \"y\": \"a\\\"b\"\n}"
  {
    var ms := Verbatim().members;
    VerbatimMemberText();
    TwoMemberPretty(ms[0], ms[1], "  ", "  \"x\": 1.50", "  \"y\": \"a\\\"b\"");
    TwoSpaces();
    VerbatimPieces();
  }

  lemma VerbatimCompactText()
    ensures Compact(Verbatim()) == "{\"x\":1.50,\"y\":\"a\\\"b\"}"
  {
    var ms := Verbatim().members;
    VerbatimCompactMemberText();
    TwoMemberCompact(ms[0], ms[1], "\"x\":1.50", "\"y\":\"a\\\"b\"");
    VerbatimPieces();
  }

  /** The number text `1.50` and the escaped string text are copied as the parser gave them. */
  lemma VerbatimBothModes()
    ensures PrettyMachine.Format(EventsOf(Verbatim()), PrettyMachine.IndentUnit(PrettyMachine.Width(2)))
         == Success("{\n  \"x\": 1.50,\n  \"y\": \"a\\\"b\"\n}")
    ensures MinifyMachine.Format(EventsOf(Verbatim())) == Success("{\"x\":1.50,\"y\":\"a\\\"b\"}")
  {
    TwoSpaces();
    PrettyTheorem.FormatIsLayout(Verbatim(), "  ");
    VerbatimPrettyText();
    MinifyTheorem.FormatIsCompact(Verbatim());
    VerbatimCompactText();
  }

  // ------------------------------------------------------------ {"a":1,}

  /** The parser fails after the `1`; neither command returns any text. */
  lemma TrailingComma(message: string, rest: seq<Event>, unit: string)
    ensures PrettyMachine.Format([StartMap, MapKey("a"), Number("1"), ParseError(message)] + rest, unit)
         == Failure(InvalidJson(message))
    ensures MinifyMachine.Format([StartMap, MapKey("a"), Number("1"), ParseError(message)] + rest)
         == Failure(InvalidJson(message))
  {
    var pre := [StartMap, MapKey("a"), Number("1")];
    assert [StartMap, MapKey("a"), Number("1"), ParseError(message)] == pre + [ParseError(message)];
    assert pre[1..] == [MapKey("a"), Number("1")];
    assert pre[1..][1..] == [Number("1")];
    assert PrettyMachine.Run(PrettyMachine.Start, pre, unit).Success?;
    assert MinifyMachine.Run(MinifyMachine.Start, pre).Success?;
    Failures.PrettyReportsParseError(pre, message, rest, unit);
    Failures.MinifyReportsParseError(pre, message, rest);
  }

  // ------------------------------------------------------- array quirks

  lemma ScalarAfterArrayText()
    ensures Pretty(JArray([JArray([JNumber("1")]), JNumber("2")]), "  ", 0) == "[[1],\n2]"
  {
    var xs := [JArray([JNumber("1")]), JNumber("2")];
    assert xs[1..] == [JNumber("2")];
    assert Pretty(xs[0], "  ", 1) == "[1]";
    assert PrettyItems(xs, "  ", 1) == "[1]" + ",\n" + "2";
  }

  /** In `[[1], 2]` the scalar after the nested array starts a new line, at column 0. */
  lemma ScalarAfterArray()
    ensures PrettyMachine.Format(EventsOf(JArray([JArray([JNumber("1")]), JNumber("2")])), "  ")
         == Success("[[1],\n2]")
  {
    PrettyTheorem.FormatIsLayout(JArray([JArray([JNumber("1")]), JNumber("2")]), "  ");
    ScalarAfterArrayText();
  }

  /** An array holding one object, given the object's layout one level in. */
  lemma OneObjectArray(o: Value, unit: string, to: string)
    requires o.JObject? && Pretty(o, unit, 1) == to
    ensures Pretty(JArray([o]), unit, 0) == "[" + to + "\n" + Repeat(unit, 0) + "]"
  {
    assert PrettyItems([o], unit, 1) == to;
  }

  /** An object with one member, given the member's layout one level in. */
  lemma OneMemberObject(m: Member, unit: string, d: nat, tm: string)
    requires PrettyMember(m, unit, d + 1) == tm
    ensures Pretty(JObject([m]), unit, d) == "{\n" + tm + "\n" + Repeat(unit, d) + "}"
  {
    assert PrettyMembers([m], unit, d + 1) == tm;
  }

  lemma ObjectInArrayPieces()
    ensures "{\n" + "    \"a\": 1" + "\n" + "  " + "}" == "{\n    \"a\": 1\n  }"
    ensures "[" + "{\n    \"a\": 1\n  }" + "\n" + "" + "]" == "[{\n    \"a\": 1\n  }\n]"
  {
  }

  lemma ObjectInArrayMemberText()
    ensures PrettyMember(Member("a", JNumber("1")), "  ", 2) == "    \"a\": 1"
  {
    TwoSpaces();
  }

  lemma ObjectInArrayText()
    ensures Pretty(JArray([JObject([Member("a", JNumber("1"))])]), "  ", 0) == "[{\n    \"a\": 1\n  }\n]"
  {
    var m := Member("a", JNumber("1"));
    TwoSpaces();
    ObjectInArrayMemberText();
    OneMemberObject(m, "  ", 1, "    \"a\": 1");
    ObjectInArrayPieces();
    OneObjectArray(JObject([m]), "  ", "{\n    \"a\": 1\n  }");
  }

  /** In `[{"a": 1}]` the array closes on a line of its own, at column 0. */
  lemma ObjectInArray()
    ensures PrettyMachine.Format(EventsOf(JArray([JObject([Member("a", JNumber("1"))])])), "  ")
         == Success("[{\n    \"a\": 1\n  }\n]")
  {
    PrettyTheorem.FormatIsLayout(JArray([JObject([Member("a", JNumber("1"))])]), "  ");
    ObjectInArrayText();
  }
}
