/**
 * Properties of the output of both commands on the events of a document:
 * no separator is left dangling before a closing bracket or at the end, the
 * minified text has no whitespace outside key and string text, and it is
 * never longer than the pretty one.
 *
 * Payloads are written verbatim, so the first two properties can only hold
 * of the text the commands themselves add: both are stated for documents
 * whose numbers are number lexemes (`Lexical`), and the first also needs
 * keys and strings that do not themselves contain a comma directly before a
 * bracket (`Undangled`).
 */
module Properties {
  import opened Wrappers
  import opened Json
  import opened Layout
  import MinifyMachine
  import MinifyTheorem
  import PrettyMachine
  import PrettyTheorem

  // ------------------------------------------------------------ text facts

  /** No `","` directly before a `"}"` or a `"]"`. */
  predicate NoDangling(s: string) {
    forall i :: 0 <= i < |s| - 1 ==> !(s[i] == ',' && (s[i + 1] == '}' || s[i + 1] == ']'))
  }

  /** Non-empty, does not start with a closing bracket, does not end with a comma, and no dangling comma inside. */
  predicate Clean(s: string) {
    NoDangling(s) && s != [] && s[0] != '}' && s[0] != ']' && s[|s| - 1] != ','
  }

  lemma Join(a: string, b: string)
    requires NoDangling(a) && NoDangling(b)
    requires a == [] || b == [] || a[|a| - 1] != ',' || (b[0] != '}' && b[0] != ']')
    ensures NoDangling(a + b)
  {
    var s := a + b;
    forall i | 0 <= i < |s| - 1
      ensures !(s[i] == ',' && (s[i + 1] == '}' || s[i + 1] == ']'))
    {
      if i + 1 < |a| {
        assert s[i] == a[i] && s[i + 1] == a[i + 1];
      } else if i >= |a| {
        assert s[i] == b[i - |a|] && s[i + 1] == b[i + 1 - |a|];
      } else {
        assert s[i] == a[|a| - 1] && s[i + 1] == b[0];
      }
    }
  }

  /** No dangling comma, and not ending with a comma either. */
  predicate Closed(s: string) {
    NoDangling(s) && (s == [] || s[|s| - 1] != ',')
  }

  lemma JoinClosed(a: string, b: string)
    requires Closed(a) && Closed(b)
    ensures Closed(a + b)
  {
    Join(a, b);
    if b == [] {
      assert a + b == a;
    } else {
      assert (a + b)[|a + b| - 1] == b[|b| - 1];
    }
  }

  /** Text without a comma has no dangling one. */
  lemma CommaFree(s: string)
    requires forall i :: 0 <= i < |s| ==> s[i] != ','
    ensures Closed(s)
  {
  }

  // ------------------------------------------------------------ documents

  /** The characters of a JSON number lexeme. */
  predicate IsNumberChar(c: char) {
    '0' <= c <= '9' || c == '-' || c == '+' || c == '.' || c == 'e' || c == 'E'
  }

  predicate IsNumberLexeme(t: string) {
    |t| > 0 && forall i :: 0 <= i < |t| ==> IsNumberChar(t[i])
  }

  /** Every number's text is a number lexeme. */
  predicate Lexical(v: Value)
    decreases v
  {
    match v
    case JNumber(t) => IsNumberLexeme(t)
    case JArray(xs) => LexicalItems(xs)
    case JObject(ms) => LexicalMembers(ms)
    case _ => true
  }

  predicate LexicalItems(xs: seq<Value>)
    decreases xs
  {
    xs == [] || (Lexical(xs[0]) && LexicalItems(xs[1..]))
  }

  predicate LexicalMembers(ms: seq<Member>)
    decreases ms
  {
    ms == [] || (Lexical(ms[0].value) && LexicalMembers(ms[1..]))
  }

  /** No key and no string has a dangling comma of its own. */
  predicate Undangled(v: Value)
    decreases v
  {
    match v
    case JString(t) => NoDangling(t)
    case JArray(xs) => UndangledItems(xs)
    case JObject(ms) => UndangledMembers(ms)
    case _ => true
  }

  predicate UndangledItems(xs: seq<Value>)
    decreases xs
  {
    xs == [] || (Undangled(xs[0]) && UndangledItems(xs[1..]))
  }

  predicate UndangledMembers(ms: seq<Member>)
    decreases ms
  {
    ms == [] || (NoDangling(ms[0].key) && Undangled(ms[0].value) && UndangledMembers(ms[1..]))
  }

  lemma LexemeClean(t: string)
    requires IsNumberLexeme(t)
    ensures Clean(t)
  {
    forall i | 0 <= i < |t| ensures t[i] != ',' {
      assert IsNumberChar(t[i]);
    }
    assert IsNumberChar(t[0]) && IsNumberChar(t[|t| - 1]);
  }

  /** A scalar's text is clean. */
  lemma ScalarClean(v: Value)
    requires IsScalar(v) && Lexical(v) && Undangled(v)
    ensures Clean(ScalarText(v))
  {
    match v
    case JNumber(t) => LexemeClean(t);
    case JString(t) =>
      Join("\"", t);
      Join("\"" + t, "\"");
    case _ =>
  }

  // ------------------------------------------------------- the compact text

  lemma {:induction false} CompactClean(v: Value)
    requires Lexical(v) && Undangled(v)
    ensures Clean(Compact(v))
    decreases v, 1
  {
    match v
    case JArray(xs) =>
      if xs == [] {
        assert Compact(v) == "[]";
      } else {
        CompactItemsClean(xs);
        Join("[", CompactItems(xs));
        Join("[" + CompactItems(xs), "]");
      }
    case JObject(ms) =>
      if ms == [] {
        assert Compact(v) == "{}";
      } else {
        CompactMembersClean(ms);
        Join("{", CompactMembers(ms));
        Join("{" + CompactMembers(ms), "}");
      }
    case _ => ScalarClean(v);
  }

  lemma {:induction false} CompactItemsClean(xs: seq<Value>)
    requires xs != [] && LexicalItems(xs) && UndangledItems(xs)
    ensures Clean(CompactItems(xs))
    decreases xs, 0
  {
    CompactClean(xs[0]);
    if |xs| > 1 {
      CompactItemsClean(xs[1..]);
      Join(",", CompactItems(xs[1..]));
      Join(Compact(xs[0]), "," + CompactItems(xs[1..]));
    }
  }

  lemma {:induction false} CompactMemberClean(m: Member)
    requires NoDangling(m.key) && Lexical(m.value) && Undangled(m.value)
    ensures Clean(CompactMember(m))
    decreases m, 1
  {
    CompactClean(m.value);
    Join("\"", m.key);
    Join("\"" + m.key, "\":");
    Join("\"" + m.key + "\":", Compact(m.value));
  }

  lemma {:induction false} CompactMembersClean(ms: seq<Member>)
    requires ms != [] && LexicalMembers(ms) && UndangledMembers(ms)
    ensures Clean(CompactMembers(ms))
    decreases ms, 0
  {
    CompactMemberClean(ms[0]);
    if |ms| > 1 {
      CompactMembersClean(ms[1..]);
      Join(",", CompactMembers(ms[1..]));
      Join(CompactMember(ms[0]), "," + CompactMembers(ms[1..]));
    }
  }

  /**
   * Minified output never has a comma right before a closing bracket and
   * never ends with one.
   */
  lemma MinifyNoDangling(v: Value)
    requires Lexical(v) && Undangled(v)
    ensures var r := MinifyMachine.Format(EventsOf(v));
      r.Success? && NoDangling(r.value) && r.value != [] && r.value[|r.value| - 1] != ','
  {
    MinifyTheorem.FormatIsCompact(v);
    CompactClean(v);
  }

  // -------------------------------------------------------- the pretty text

  lemma RepeatClosed(unit: string, d: nat)
    requires ',' !in unit
    ensures Closed(Repeat(unit, d))
  {
    RepeatShape(unit, d);
    var r := Repeat(unit, d);
    forall i | 0 <= i < |r| ensures r[i] != ',' {
      assert r[i] in unit;
    }
    CommaFree(r);
  }

  lemma ItemSepClosed(x: Value, y: Value)
    ensures Closed(ItemSep(x, y))
  {
  }

  lemma {:induction false} PrettyClosed(v: Value, unit: string, d: nat)
    requires Lexical(v) && Undangled(v) && ',' !in unit
    ensures Closed(Pretty(v, unit, d)) && Pretty(v, unit, d) != []
    decreases v, 1
  {
    match v
    case JArray(xs) =>
      if xs != [] {
        var close := if Last(xs).JObject? then "\n" + Repeat(unit, d) else "";
        PrettyItemsClosed(xs, unit, d + 1);
        RepeatClosed(unit, d);
        JoinClosed("\n", Repeat(unit, d));
        JoinClosed("[", PrettyItems(xs, unit, d + 1));
        JoinClosed("[" + PrettyItems(xs, unit, d + 1), close);
        JoinClosed("[" + PrettyItems(xs, unit, d + 1) + close, "]");
      }
    case JObject(ms) =>
      if ms != [] {
        PrettyMembersClosed(ms, unit, d + 1);
        RepeatClosed(unit, d);
        JoinClosed("{\n", PrettyMembers(ms, unit, d + 1));
        JoinClosed("{\n" + PrettyMembers(ms, unit, d + 1), "\n");
        JoinClosed("{\n" + PrettyMembers(ms, unit, d + 1) + "\n", Repeat(unit, d));
        JoinClosed("{\n" + PrettyMembers(ms, unit, d + 1) + "\n" + Repeat(unit, d), "}");
      }
    case _ => ScalarClean(v);
  }

  lemma {:induction false} PrettyItemsClosed(xs: seq<Value>, unit: string, d: nat)
    requires xs != [] && LexicalItems(xs) && UndangledItems(xs) && ',' !in unit
    ensures Closed(PrettyItems(xs, unit, d))
    decreases xs, 0
  {
    PrettyClosed(xs[0], unit, d);
    if |xs| > 1 {
      PrettyItemsClosed(xs[1..], unit, d);
      ItemSepClosed(xs[0], xs[1]);
      JoinClosed(ItemSep(xs[0], xs[1]), PrettyItems(xs[1..], unit, d));
      JoinClosed(Pretty(xs[0], unit, d), ItemSep(xs[0], xs[1]) + PrettyItems(xs[1..], unit, d));
    }
  }

  lemma {:induction false} PrettyMemberClosed(m: Member, unit: string, d: nat)
    requires NoDangling(m.key) && Lexical(m.value) && Undangled(m.value) && ',' !in unit
    ensures Closed(PrettyMember(m, unit, d))
    decreases m, 1
  {
    PrettyClosed(m.value, unit, d);
    RepeatClosed(unit, d);
    JoinClosed(Repeat(unit, d), "\"");
    Join(Repeat(unit, d) + "\"", m.key);
    Join(Repeat(unit, d) + "\"" + m.key, "\": ");
    JoinClosed(Repeat(unit, d) + "\"" + m.key + "\": ", Pretty(m.value, unit, d));
  }

  lemma {:induction false} PrettyMembersClosed(ms: seq<Member>, unit: string, d: nat)
    requires ms != [] && LexicalMembers(ms) && UndangledMembers(ms) && ',' !in unit
    ensures Closed(PrettyMembers(ms, unit, d))
    decreases ms, 0
  {
    PrettyMemberClosed(ms[0], unit, d);
    if |ms| > 1 {
      PrettyMembersClosed(ms[1..], unit, d);
      JoinClosed(",\n", PrettyMembers(ms[1..], unit, d));
      JoinClosed(PrettyMember(ms[0], unit, d), ",\n" + PrettyMembers(ms[1..], unit, d));
    }
  }

  /**
   * Pretty output never has a comma right before a closing bracket and
   * never ends with one, as long as the indent unit has no comma.
   */
  lemma PrettyNoDangling(v: Value, setting: PrettyMachine.IndentSetting)
    requires Lexical(v) && Undangled(v) && ',' !in PrettyMachine.IndentUnit(setting)
    ensures var r := PrettyMachine.Format(EventsOf(v), PrettyMachine.IndentUnit(setting));
      r.Success? && NoDangling(r.value) && r.value != [] && r.value[|r.value| - 1] != ','
  {
    PrettyTheorem.FormatIsLayout(v, PrettyMachine.IndentUnit(setting));
    PrettyClosed(v, PrettyMachine.IndentUnit(setting), 0);
  }

  // --------------------------------------------------------- whitespace

  predicate IsBlank(c: char) {
    c == ' ' || c == '\n' || c == '\t' || c == '\r'
  }

  /** The number of whitespace characters in `s`. */
  function Blanks(s: string): nat {
    if s == [] then 0 else (if IsBlank(s[0]) then 1 else 0) + Blanks(s[1..])
  }

  lemma {:induction false} BlanksAppend(a: string, b: string)
    ensures Blanks(a + b) == Blanks(a) + Blanks(b)
    decreases |a|
  {
    if a == [] {
      assert a + b == b;
    } else {
      assert (a + b)[0] == a[0];
      assert (a + b)[1..] == a[1..] + b;
      BlanksAppend(a[1..], b);
    }
  }

  lemma {:induction false} LexemeNoBlanks(t: string)
    requires forall i :: 0 <= i < |t| ==> IsNumberChar(t[i])
    ensures Blanks(t) == 0
    decreases |t|
  {
    if t != [] {
      assert IsNumberChar(t[0]);
      LexemeNoBlanks(t[1..]);
    }
  }

  lemma {:induction false} NoBlanks(s: string)
    requires forall i :: 0 <= i < |s| ==> !IsBlank(s[i])
    ensures Blanks(s) == 0
    decreases |s|
  {
    if s != [] {
      assert !IsBlank(s[0]);
      NoBlanks(s[1..]);
    }
  }

  lemma PunctuationBlanks()
    ensures Blanks("[") == 0 && Blanks("]") == 0 && Blanks("{") == 0 && Blanks("}") == 0
    ensures Blanks(",") == 0 && Blanks("\"") == 0 && Blanks("\":") == 0
    ensures Blanks("null") == 0 && Blanks("true") == 0 && Blanks("false") == 0
  {
    NoBlanks("["); NoBlanks("]"); NoBlanks("{"); NoBlanks("}");
    NoBlanks(","); NoBlanks("\""); NoBlanks("\":");
    NoBlanks("null"); NoBlanks("true"); NoBlanks("false");
  }

  /** The whitespace inside the document's keys and strings. */
  function TextBlanks(v: Value): nat
    decreases v
  {
    match v
    case JString(t) => Blanks(t)
    case JArray(xs) => ItemsTextBlanks(xs)
    case JObject(ms) => MembersTextBlanks(ms)
    case _ => 0
  }

  function ItemsTextBlanks(xs: seq<Value>): nat
    decreases xs
  {
    if xs == [] then 0 else TextBlanks(xs[0]) + ItemsTextBlanks(xs[1..])
  }

  function MembersTextBlanks(ms: seq<Member>): nat
    decreases ms
  {
    if ms == [] then 0 else Blanks(ms[0].key) + TextBlanks(ms[0].value) + MembersTextBlanks(ms[1..])
  }

  lemma {:induction false} CompactBlanks(v: Value)
    requires Lexical(v)
    ensures Blanks(Compact(v)) == TextBlanks(v)
    decreases v, 1
  {
    PunctuationBlanks();
    match v
    case JArray(xs) =>
      CompactItemsBlanks(xs);
      BlanksAppend("[", CompactItems(xs));
      BlanksAppend("[" + CompactItems(xs), "]");
    case JObject(ms) =>
      CompactMembersBlanks(ms);
      BlanksAppend("{", CompactMembers(ms));
      BlanksAppend("{" + CompactMembers(ms), "}");
    case JNumber(t) => LexemeNoBlanks(t);
    case JString(t) =>
      BlanksAppend("\"", t);
      BlanksAppend("\"" + t, "\"");
    case JBool(b) =>
    case JNull =>
  }

  lemma {:induction false} CompactItemsBlanks(xs: seq<Value>)
    requires LexicalItems(xs)
    ensures Blanks(CompactItems(xs)) == ItemsTextBlanks(xs)
    decreases xs, 0
  {
    PunctuationBlanks();
    if xs != [] {
      CompactBlanks(xs[0]);
      CompactItemsBlanks(xs[1..]);
      if |xs| > 1 {
        BlanksAppend(",", CompactItems(xs[1..]));
        BlanksAppend(Compact(xs[0]), "," + CompactItems(xs[1..]));
      } else {
        assert CompactItems(xs) == Compact(xs[0]);
        assert ItemsTextBlanks(xs[1..]) == 0;
      }
    }
  }

  lemma {:induction false} CompactMembersBlanks(ms: seq<Member>)
    requires LexicalMembers(ms)
    ensures Blanks(CompactMembers(ms)) == MembersTextBlanks(ms)
    decreases ms, 0
  {
    PunctuationBlanks();
    if ms != [] {
      var m := ms[0];
      CompactBlanks(m.value);
      CompactMembersBlanks(ms[1..]);
      BlanksAppend("\"", m.key);
      BlanksAppend("\"" + m.key, "\":");
      BlanksAppend("\"" + m.key + "\":", Compact(m.value));
      if |ms| > 1 {
        BlanksAppend(",", CompactMembers(ms[1..]));
        BlanksAppend(CompactMember(m), "," + CompactMembers(ms[1..]));
      } else {
        assert CompactMembers(ms) == CompactMember(m);
        assert MembersTextBlanks(ms[1..]) == 0;
      }
    }
  }

  /** Minified output has no whitespace outside the document's keys and strings. */
  lemma MinifyHasNoBlanks(v: Value)
    requires Lexical(v)
    ensures var r := MinifyMachine.Format(EventsOf(v));
      r.Success? && Blanks(r.value) == TextBlanks(v)
  {
    MinifyTheorem.FormatIsCompact(v);
    CompactBlanks(v);
  }

  // ---------------------------------------------------------------- size

  lemma {:induction false} CompactNotLonger(v: Value, unit: string, d: nat)
    ensures |Compact(v)| <= |Pretty(v, unit, d)|
    decreases v, 1
  {
    match v
    case JArray(xs) =>
      if xs != [] { ItemsNotLonger(xs, unit, d + 1); }
    case JObject(ms) =>
      if ms != [] { MembersNotLonger(ms, unit, d + 1); }
    case _ =>
  }

  lemma {:induction false} ItemsNotLonger(xs: seq<Value>, unit: string, d: nat)
    requires xs != []
    ensures |CompactItems(xs)| <= |PrettyItems(xs, unit, d)|
    decreases xs, 0
  {
    CompactNotLonger(xs[0], unit, d);
    if |xs| > 1 {
      ItemsNotLonger(xs[1..], unit, d);
    }
  }

  lemma {:induction false} MembersNotLonger(ms: seq<Member>, unit: string, d: nat)
    requires ms != []
    ensures |CompactMembers(ms)| <= |PrettyMembers(ms, unit, d)|
    decreases ms, 0
  {
    CompactNotLonger(ms[0].value, unit, d);
    if |ms| > 1 {
      MembersNotLonger(ms[1..], unit, d);
    }
  }

  /** For every document and every indent setting, the minified output is no longer than the pretty one. */
  lemma MinifyNotLongerThanPretty(v: Value, setting: PrettyMachine.IndentSetting)
    ensures var c := MinifyMachine.Format(EventsOf(v));
            var p := PrettyMachine.Format(EventsOf(v), PrettyMachine.IndentUnit(setting));
      c.Success? && p.Success? && |c.value| <= |p.value|
  {
    MinifyTheorem.FormatIsCompact(v);
    PrettyTheorem.FormatIsLayout(v, PrettyMachine.IndentUnit(setting));
    CompactNotLonger(v, PrettyMachine.IndentUnit(setting), 0);
  }
}
