/**
 * The two layouts, defined directly on the document tree with no buffer and
 * no back-patching: each separator is placed between siblings, so nothing
 * has to be taken back. The formatters are proved to produce exactly these.
 */
module Layout {
  import opened Json

  /** `n` copies of `unit`: the indent at depth `n`. */
  function Repeat(unit: string, n: nat): string
  {
    if n == 0 then "" else Repeat(unit, n - 1) + unit
  }

  /** The indent at depth `n` is `n * |unit|` characters long, all taken from `unit`. */
  lemma {:induction false} RepeatShape(unit: string, n: nat)
    ensures |Repeat(unit, n)| == n * |unit|
    ensures forall i :: 0 <= i < |Repeat(unit, n)| ==> Repeat(unit, n)[i] in unit
  {
    if n > 0 {
      RepeatShape(unit, n - 1);
      var r := Repeat(unit, n - 1);
      assert Repeat(unit, n) == r + unit;
      forall i | 0 <= i < |r + unit| ensures (r + unit)[i] in unit {
        if i >= |r| {
          assert (r + unit)[i] == unit[i - |r|];
        }
      }
    }
  }

  /** The literal of a scalar: numbers verbatim, strings re-quoted without re-escaping. */
  function ScalarText(v: Value): string
    requires IsScalar(v)
  {
    match v
    case JNull => "null"
    case JBool(b) => if b then "true" else "false"
    case JNumber(t) => t
    case JString(t) => "\"" + t + "\""
  }

  // ---------------------------------------------------------------- pretty

  /**
   * The pretty layout of `v` at nesting depth `d`. Object members go one per
   * line at the inner indent; array items share a line, separated by ", ",
   * except that a scalar right after a nested array starts a new line (at
   * column 0); an array whose last item is an object closes on its own line.
   */
  function Pretty(v: Value, unit: string, d: nat): string
    decreases v
  {
    match v
    case JArray(xs) =>
      if xs == [] then "[]"
      else "[" + PrettyItems(xs, unit, d + 1) + (if Last(xs).JObject? then "\n" + Repeat(unit, d) else "") + "]"
    case JObject(ms) =>
      if ms == [] then "{}"
      else "{\n" + PrettyMembers(ms, unit, d + 1) + "\n" + Repeat(unit, d) + "}"
    case _ => ScalarText(v)
  }

  /** What separates two neighbouring array items in the pretty layout. */
  function ItemSep(x: Value, y: Value): string {
    if x.JArray? && IsScalar(y) then ",\n" else ", "
  }

  function PrettyItems(xs: seq<Value>, unit: string, d: nat): string
    requires xs != []
    decreases xs
  {
    Pretty(xs[0], unit, d) + (if |xs| == 1 then "" else ItemSep(xs[0], xs[1]) + PrettyItems(xs[1..], unit, d))
  }

  /** One member: indent, the quoted key, `": "`, the value. */
  function PrettyMember(m: Member, unit: string, d: nat): string
    decreases m
  {
    Repeat(unit, d) + "\"" + m.key + "\": " + Pretty(m.value, unit, d)
  }

  function PrettyMembers(ms: seq<Member>, unit: string, d: nat): string
    requires ms != []
    decreases ms
  {
    PrettyMember(ms[0], unit, d) + (if |ms| == 1 then "" else ",\n" + PrettyMembers(ms[1..], unit, d))
  }

  // --------------------------------------------------------------- compact

  /** The minimal layout: separators and brackets only. */
  function Compact(v: Value): string
    decreases v
  {
    match v
    case JArray(xs) => "[" + CompactItems(xs) + "]"
    case JObject(ms) => "{" + CompactMembers(ms) + "}"
    case _ => ScalarText(v)
  }

  function CompactItems(xs: seq<Value>): string
    decreases xs
  {
    if xs == [] then ""
    else Compact(xs[0]) + (if |xs| == 1 then "" else "," + CompactItems(xs[1..]))
  }

  function CompactMember(m: Member): string
    decreases m
  {
    "\"" + m.key + "\":" + Compact(m.value)
  }

  function CompactMembers(ms: seq<Member>): string
    decreases ms
  {
    if ms == [] then ""
    else CompactMember(ms[0]) + (if |ms| == 1 then "" else "," + CompactMembers(ms[1..]))
  }
}
