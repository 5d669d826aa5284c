/**
 * What both commands write for an event, and the `seek(tell() - k)` they
 * use to back-patch the buffer, on the value of the output stream.
 */
module Output {
  import opened Wrappers
  import opened StringIO
  import opened Ijson

  /** `seek(tell() - k)` */
  function SeekBack(out: Stream, k: nat): Result<Stream, Error> {
    match out.Seek(out.pos - k)
    case None => Failure(NegativeSeek)
    case Some(o) => Success(o)
  }

  /** `seek(tell() - k)` followed by `write(s)` */
  function Patch(out: Stream, k: nat, s: string): Result<Stream, Error> {
    var o :- SeekBack(out, k);
    Success(o.Write(s))
  }

  /** `seek(tell() - k)`, `truncate()`, `getvalue()`: the text up to `k` characters before the cursor. */
  function Trimmed(out: Stream, k: nat): Result<string, Error> {
    var o :- SeekBack(out, k);
    Success(o.Truncate().text)
  }

  /** With the cursor at the end, the trim cuts off the last `k` characters, or fails when there are fewer. */
  lemma TrimmedAtEnd(out: Stream, k: nat)
    requires out.AtEnd()
    ensures k <= |out.text| ==> Trimmed(out, k) == Success(out.text[..|out.text| - k])
    ensures k > |out.text| ==> Trimmed(out, k) == Failure(NegativeSeek)
  {
  }

  /** The end of both `process` methods, on the buffer. */
  method Finish(sOut: Buffer, k: nat) returns (r: Result<string, Error>)
    modifies sOut
    ensures r == Trimmed(old(sOut.Value()), k)
  {
    var p: int := sOut.Tell();
    var ok := sOut.Seek(p - k);
    if !ok { return Failure(NegativeSeek); }
    sOut.Truncate();
    var s := sOut.GetValue();
    return Success(s);
  }

  /** Python's `str` of a bool. */
  function PyStr(b: bool): string {
    if b then "True" else "False"
  }

  function LowerChar(c: char): char {
    if 'A' <= c <= 'Z' then (c as int - 'A' as int + 'a' as int) as char else c
  }

  /** `str.lower()`, on the ASCII letters that `PyStr` produces. */
  function Lower(s: string): (r: string)
    ensures |r| == |s|
    ensures forall i :: 0 <= i < |s| ==> r[i] == LowerChar(s[i])
  {
    if s == [] then "" else [LowerChar(s[0])] + Lower(s[1..])
  }

  /** What a scalar event writes before its `","`: the payload text itself, quoted for a string. */
  function Literal(e: Event): string
    requires IsScalarEvent(e)
  {
    match e
    case Null => "null"
    case Boolean(b) => Lower(PyStr(b))
    case Number(t) => t
    case String(t) => "\"" + t + "\""
  }

  /**
   * Scalars are written verbatim: a number's text unchanged, a string's
   * text between quotes with no re-escaping, `null`, and a boolean as the
   * JSON literal `true` or `false`.
   */
  lemma ScalarLiterals(e: Event)
    requires IsScalarEvent(e)
    ensures e.Number? ==> Literal(e) == e.text
    ensures e.String? ==> (Literal(e) == "\"" + e.text + "\"" && Literal(e)[1..|Literal(e)| - 1] == e.text)
    ensures e.Null? ==> Literal(e) == "null"
    ensures e.Boolean? ==> Literal(e) == (if e.value then "true" else "false")
  {
    if e.Boolean? {
      var r := Lower(PyStr(e.value));
      if e.value {
        assert r == "true" by {
          assert r[0] == LowerChar('T') == 't';
        }
      } else {
        assert r == "false" by {
          assert r[0] == LowerChar('F') == 'f';
        }
      }
    }
    if e.String? {
      var r := Literal(e);
      assert r[1..|r| - 1] == e.text;
    }
  }
}
