/**
 * The in-memory text stream (Python's `io.StringIO`) that both formatters
 * write into. `Stream` is its abstract value -- the text and the cursor --
 * and `Buffer` is the mutable object whose methods the formatters call.
 */
module StringIO {
  import opened Wrappers

  /** `n` NUL characters: what a write past the end of the text pads with. */
  function Nuls(n: nat): (r: string)
    ensures |r| == n
    ensures forall i :: 0 <= i < n ==> r[i] == '\0'
  {
    seq(n, _ => '\0')
  }

  datatype Stream = Stream(text: string, pos: nat) {

    /** The cursor stands at the end of the text. */
    predicate AtEnd() {
      pos == |text|
    }

    /**
     * `write(s)`: the characters of `s` replace those from the cursor on,
     * the text grows when they run past its end, and the cursor ends after them.
     * An empty `s` changes nothing, even with the cursor past the end.
     */
    function Write(s: string): (r: Stream)
      ensures r.pos == pos + |s|
      ensures |r.text| == if s != [] && pos + |s| > |text| then pos + |s| else |text|
    {
      if s == [] then this else
      var head := if pos <= |text| then text[..pos] else text + Nuls(pos - |text|);
      var tail := if pos + |s| < |text| then text[pos + |s|..] else [];
      assert |head| == pos;
      Stream(head + s + tail, pos + |s|)
    }

    /** `seek(p)`: a negative position is refused (Python raises ValueError); any other is taken as is. */
    function Seek(p: int): (r: Option<Stream>)
      ensures r.Some? <==> p >= 0
      ensures r.Some? ==> r.value.text == text && r.value.pos == p
    {
      if p < 0 then None else Some(Stream(text, p))
    }

    /** `truncate()`: drop everything after the cursor; the text never grows and the cursor stays. */
    function Truncate(): (r: Stream)
      ensures r.pos == pos
      ensures |r.text| == if pos < |text| then pos else |text|
      ensures r.text == text[..|r.text|]
    {
      Stream(if pos < |text| then text[..pos] else text, pos)
    }
  }

  /**
   * What `write` leaves: `s` from the old cursor on, the old text before it
   * and after it, and NUL padding between the old end and the old cursor.
   * An empty write leaves the stream as it was.
   */
  lemma WriteContents(st: Stream, s: string)
    ensures s == [] ==> st.Write(s) == st
    ensures s != [] ==> st.Write(s).text[st.pos..st.pos + |s|] == s
    ensures forall i :: 0 <= i < |st.text| && (i < st.pos || st.pos + |s| <= i) ==> st.Write(s).text[i] == st.text[i]
    ensures s != [] ==> forall i :: |st.text| <= i < st.pos ==> st.Write(s).text[i] == '\0'
  {
  }

  /** Writing at the end appends. */
  lemma AppendAtEnd(st: Stream, s: string)
    requires st.AtEnd()
    ensures st.Write(s) == Stream(st.text + s, |st.text| + |s|)
  {
  }

  /**
   * The back-patch primitive: seeking back `k` characters from the end and
   * writing at least `k` characters replaces the last `k` characters by `s`
   * and leaves the cursor at the end again.
   */
  lemma BackPatch(st: Stream, k: nat, s: string)
    requires st.AtEnd() && k <= |st.text| && |s| >= k
    ensures st.Seek(st.pos - k).Some?
    ensures st.Seek(st.pos - k).value.Write(s) == Stream(st.text[..|st.text| - k] + s, |st.text| - k + |s|)
    ensures st.Seek(st.pos - k).value.Write(s).AtEnd()
  {
  }

  /**
   * Seeking back `k` characters from the end and writing fewer than `k`
   * leaves the rest of those `k` characters in place, the cursor before them.
   */
  lemma ShortPatch(st: Stream, k: nat, s: string)
    requires st.AtEnd() && k <= |st.text| && |s| < k
    ensures st.Seek(st.pos - k).Some?
    ensures st.Seek(st.pos - k).value.Write(s)
         == Stream(st.text[..|st.text| - k] + s + st.text[|st.text| - k + |s|..], |st.text| - k + |s|)
  {
  }

  /** Seeking back `k` from the end and truncating removes exactly the last `k` characters. */
  lemma TrimEnd(st: Stream, k: nat)
    requires st.AtEnd() && k <= |st.text|
    ensures st.Seek(st.pos - k).Some?
    ensures st.Seek(st.pos - k).value.Truncate().text == st.text[..|st.text| - k]
  {
  }

  /** The mutable `StringIO` object. */
  class Buffer {
    var text: string
    var pos: nat

    function Value(): Stream
      reads this
    {
      Stream(text, pos)
    }

    /** `StringIO()`: empty, cursor at 0. */
    constructor ()
      ensures Value() == Stream("", 0)
    {
      text := "";
      pos := 0;
    }

    /** `tell()` */
    method Tell() returns (p: nat)
      ensures p == pos
    {
      p := pos;
    }

    /** `seek(p)`; `ok` is false where Python raises ValueError, and then nothing changes. */
    method Seek(p: int) returns (ok: bool)
      modifies this
      ensures ok == old(Value()).Seek(p).Some?
      ensures ok ==> Value() == old(Value()).Seek(p).value
      ensures !ok ==> Value() == old(Value())
    {
      ok := p >= 0;
      if ok {
        pos := p;
      }
    }

    /** `write(s)` */
    method Write(s: string)
      modifies this
      ensures Value() == old(Value()).Write(s)
    {
      var st := Value().Write(s);
      text, pos := st.text, st.pos;
    }

    /** `truncate()` */
    method Truncate()
      modifies this
      ensures Value() == old(Value()).Truncate()
    {
      if pos < |text| {
        text := text[..pos];
      }
    }

    /** `getvalue()` */
    method GetValue() returns (s: string)
      ensures s == text
    {
      s := text;
    }
  }
}
