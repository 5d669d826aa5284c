# prettyijson: the event-driven JSON re-serialisers, in Dafny

The Sublime Text plugin `prettyijson.py` has two commands, `PrettyIjsonCommand` and
`MinifyIjsonCommand`. Each has a `process` method that reformats a JSON document
without building a tree. It runs over the events of the streaming parser ijson
(`start_map`, `end_map`, `start_array`, `end_array`, `map_key` and the scalars)
and writes into a `StringIO` buffer.

- After every value and every closing bracket the method writes a separator
  speculatively: `","` when minifying, or `",\n"` / `", "` when pretty-printing.
- When a later event shows that separator was wrong, the method back-patches it
  with `seek(tell() - k)` and `write`.
- At the end it cuts the last separator off with `seek`/`truncate`.

This project models both `process` methods and proves what they produce.

- **Buffer.** `StringIO` is modelled as a value, `StringIO.Stream(text, pos)`:
  - `write` overwrites from the cursor, then extends the text;
  - `seek` to a negative position fails;
  - `truncate` cuts the text at the cursor.

  `StringIO.Buffer` is the mutable object the methods call. Each of its methods
  is proved to act like the value operation.
- **Methods.** `PrettyIjson.Process` and `MinifyIjson.Process` are the two
  methods, written as loops over a sequence of `Ijson.Event`s on a `Buffer`.
  The pretty method takes one handler method per branch of the source's `if`/`elif` chain,
  except that `start_map` and `start_array` (prettyijson.py:84, 101) share
  `PrettyIjson.OnOpen`, which takes the bracket to write.
- **Machines.** Each loop is proved equal to a step function folded over the
  events (`PrettyMachine.Format`, `MinifyMachine.Format`). The step function
  mirrors the branches one for one, including every `seek` that can go before
  the start of the buffer.
- **Independent reference.** A JSON value tree (`Json.Value`), the event stream
  ijson produces for it (`Json.EventsOf`), and two layout functions written
  directly on the tree (`Layout.Pretty`, `Layout.Compact`).
- **Main theorems.** For every document `v`:
  - `PrettyMachine.Format(EventsOf(v), unit) == Success(Pretty(v, unit, 0))`;
  - `MinifyMachine.Format(EventsOf(v)) == Success(Compact(v))`.

  The methods' postconditions carry these.
- **Other properties** rest on those theorems:
  - no comma before a closing bracket or at the end;
  - no whitespace added by the minifier;
  - minified output is never longer than pretty output;
  - the indent tracks the nesting depth;
  - the error paths.

The event stream of a well-formed document is `EventsOf(v)` for some `v`
(`Json.WellFormed`). A parse error raised by ijson part-way through the input
is the event `ParseError(message)`. `process` then returns `None`, modelled as
`Failure(InvalidJson(message))`.

## Model

| member | source | states |
|---|---|---|
| StringIO.Stream.Write | prettyijson.py:89 | write overwrites from the cursor and extends the text; the cursor moves past what was written; an empty write changes nothing |
| StringIO.Stream.Seek | prettyijson.py:86 | seek succeeds exactly for a non-negative position, moving only the cursor |
| StringIO.Stream.Truncate | prettyijson.py:143 | truncate keeps the text before the cursor and never extends it |
| StringIO.WriteContents | prettyijson.py:89 | after a non-empty write the written text sits at the old cursor, everything outside it is unchanged, and any gap is NUL-padded; an empty write leaves the stream as it was |
| StringIO.AppendAtEnd | prettyijson.py:89 | a write with the cursor at the end appends |
| StringIO.BackPatch | prettyijson.py:86-87 | seeking back k ≤ length from the end and writing s at least k long leaves the text minus its last k characters, plus s, with the cursor at the end; applied at the back-patches that write at least as much as they seek over (86-87, 93-94, 103-104, 118-119, 125-126, 166-167, 174-175) |
| StringIO.ShortPatch | prettyijson.py:97-98 | a patch shorter than the seek overwrites in the middle and leaves the cursor before the end; applied, with the write that follows, at the `seek(tell() - 2)`, `write("\n")` sites (97-100, 113-116) |
| StringIO.TrimEnd | prettyijson.py:142-143 | seeking back k from the end and truncating leaves the text minus its last k characters |
| StringIO.Buffer.constructor | prettyijson.py:81 | a new StringIO is empty, with the cursor at 0 |
| StringIO.Buffer.Tell | prettyijson.py:86 | tell returns the cursor |
| StringIO.Buffer.Seek | prettyijson.py:86 | the buffer moves its cursor exactly as Stream.Seek does, and is unchanged when seek fails |
| StringIO.Buffer.Write | prettyijson.py:89 | the buffer's new value is the old value's Stream.Write |
| StringIO.Buffer.Truncate | prettyijson.py:143 | the buffer's new value is the old value's Stream.Truncate |
| StringIO.Buffer.GetValue | prettyijson.py:144 | getvalue returns the whole text |
| Output.Finish | prettyijson.py:142-144 | seek(tell() - k), truncate, getvalue: the result is the text up to k characters before the cursor, or NegativeSeek when the cursor is fewer than k characters from the start (also lines 190-192) |
| Output.TrimmedAtEnd | prettyijson.py:142-144 | with the cursor at the end, that trim is the text minus its last k characters, or NegativeSeek when the text is shorter than k (also lines 190-192) |
| Output.Lower | prettyijson.py:131 | str.lower maps each character to its lower case and keeps the length |
| Output.ScalarLiterals | prettyijson.py:128-136 | a number's text is written unchanged; a string is wrapped in quotes and nothing else; null is `null`; a boolean is `true`/`false` (also lines 179-186) |
| PrettyMachine.Spaces | prettyijson.py:73 | `''.ljust(n)` is n spaces, and none when n is not positive |
| PrettyMachine.IndentUnit | prettyijson.py:71-75 | an integer setting n gives an indent unit of max(n, 0) spaces; a string setting is used literally |
| PrettyMachine.DropLast | prettyijson.py:95 | `indent[:-n]` is a prefix of the indent, n characters shorter, and empty when n is 0 or at least its length |
| PrettyMachine.StepIndentChange | prettyijson.py:90-120 | each start_* appends one unit to the indent, each end_* drops len(unit) characters, every other event keeps it |
| PrettyMachine.IndentIsDepth | prettyijson.py:84-140 | after any run that succeeds and never closes more containers than it opened, the indent is depth copies of the unit |
| PrettyMachine.IndentLength | prettyijson.py:84-140 | hence len(indent) == depth * len(indent_string) |
| PrettyMachine.StepKeepsAtEnd | prettyijson.py:84-140 | every branch, back-patches included, leaves the cursor at the end of the buffer |
| PrettyMachine.RunKeepsAtEnd | prettyijson.py:83-140 | so after any loop that succeeds from an empty buffer the cursor is at the end |
| PrettyMachine.FormatCutsTwo | prettyijson.py:142-144 | hence the final seek(tell() - 2) and truncate cut exactly the last two characters the loop wrote, or raise when it wrote fewer |
| PrettyTheorem.StepOpen | prettyijson.py:84-90 | start_map / start_array after an end_* turns the last character into a space, then writes `{\n` / `[` and indents one unit (also lines 101-107) |
| PrettyTheorem.StepCloseEmptyMap | prettyijson.py:92-95 | end_map right after start_map rewrites the last character into `},\n` and dedents |
| PrettyTheorem.StepCloseMap | prettyijson.py:96-100 | any other end_map replaces the last two characters by a line break, then the dedented indent and `},\n` |
| PrettyTheorem.StepCloseEmptyArray | prettyijson.py:109-111 | end_array right after start_array appends `],\n` |
| PrettyTheorem.StepCloseArrayAfterMap | prettyijson.py:112-116 | end_array after end_map replaces `,\n` by a line break, then the dedented indent and `],\n` |
| PrettyTheorem.StepCloseArray | prettyijson.py:117-120 | any other end_array replaces the last two characters by `],\n` |
| PrettyTheorem.StepKey | prettyijson.py:121-122 | map_key appends indent, the quoted key and `": "` |
| PrettyTheorem.StepScalar | prettyijson.py:123-138 | a scalar after end_map turns the last character into a space; then the literal, `,`, and `\n` after a key or a space otherwise |
| PrettyTheorem.ValueRun | prettyijson.py:84-140 | the events of any value, from any context, append that value's pretty layout and exactly one separator (`,\n` after a key or a container, `, ` after an array scalar), possibly collapsing the context's last character; the indent is back where it was |
| PrettyTheorem.RunLeavesOneSeparator | prettyijson.py:84-140 | before the final trim the buffer is the layout of the document plus one two-character separator starting with `,` |
| PrettyTheorem.FormatIsLayout | prettyijson.py:70-144 | pretty-printing the events of any document returns exactly its pretty layout: the final seek(-2)/truncate strips exactly the last separator |
| PrettyTheorem.FormatDocuments | prettyijson.py:70-144 | the same for every event stream that is the stream of a document, so a well-formed stream never fails |
| PrettyIjson.OnOpen | prettyijson.py:84-90 | the start_map / start_array branch does to the buffer and indent what one machine step does, or fails exactly where seek raises (also lines 101-107) |
| PrettyIjson.OnEndMap | prettyijson.py:91-100 | the end_map branch does what one machine step does, or fails exactly where seek raises |
| PrettyIjson.OnEndArray | prettyijson.py:108-120 | the end_array branch does what one machine step does, or fails exactly where seek raises |
| PrettyIjson.OnKey | prettyijson.py:121-122 | the map_key branch does what one machine step does |
| PrettyIjson.OnScalar | prettyijson.py:123-138 | the scalar branch does what one machine step does, or fails exactly where seek raises |
| PrettyIjson.Process | prettyijson.py:70-148 | the result is the machine's; for the events of any document it is that document's pretty layout with the configured indent, and never a failure |
| MinifyMachine.StepKeepsAtEnd | prettyijson.py:160-186 | every branch, back-patches included, leaves the cursor at the end of the buffer |
| MinifyMachine.RunKeepsAtEnd | prettyijson.py:159-188 | so after any loop that succeeds from an empty buffer the cursor is at the end |
| MinifyMachine.FormatCutsOne | prettyijson.py:190-192 | hence the final seek(tell() - 1) and truncate cut exactly the last character the loop wrote, or raise when it wrote nothing |
| MinifyTheorem.StepAppend | prettyijson.py:160-186 | start_map, start_array, map_key and scalars append `{`, `[`, the quoted key and `:`, or the literal and `,` |
| MinifyTheorem.StepCloseEmpty | prettyijson.py:162-172 | a close right after its opening bracket appends `},` / `],` |
| MinifyTheorem.StepClose | prettyijson.py:165-175 | any other close overwrites the speculative `,` with `},` / `],` |
| MinifyTheorem.ValueRun | prettyijson.py:159-188 | the events of any value append its compact layout followed by exactly one `,`, from any context |
| MinifyTheorem.RunLeavesOneComma | prettyijson.py:159-188 | before the final trim the buffer is the compact layout plus one `,` |
| MinifyTheorem.FormatIsCompact | prettyijson.py:155-192 | minifying the events of any document returns exactly its compact layout: the final truncate removes exactly the one trailing `,` |
| MinifyTheorem.FormatDocuments | prettyijson.py:155-192 | the same for every event stream that is the stream of a document, so a well-formed stream never fails |
| MinifyIjson.OnClose | prettyijson.py:162-175 | the end_map / end_array branch with prevEvent bound does what one machine step does, or fails exactly where seek raises |
| MinifyIjson.Process | prettyijson.py:155-196 | the result is the machine's; for the events of any document it is that document's compact layout, and never a failure |
| Properties.CompactClean | prettyijson.py:161-191 | for a document whose numbers are number lexemes (Lexical) and whose keys and strings have no comma directly before a closing bracket (Undangled), the compact layout is non-empty, has no comma before a closing bracket, starts with no closing bracket and does not end with a comma |
| Properties.MinifyNoDangling | prettyijson.py:161-191 | minified output has no `,` directly before `}` or `]` and does not end with `,` |
| Properties.PrettyClosed | prettyijson.py:94-143 | for a Lexical and Undangled document and an indent unit without a comma, the pretty layout is non-empty, has no comma before a closing bracket and does not end with a comma |
| Properties.PrettyNoDangling | prettyijson.py:94-143 | pretty output has no `,` directly before `}` or `]` and does not end with `,`, for an indent unit without commas |
| Properties.CompactBlanks | prettyijson.py:161-186 | for a document whose numbers are number lexemes (Lexical), the whitespace in the compact layout is exactly the whitespace inside keys and strings |
| Properties.MinifyHasNoBlanks | prettyijson.py:155-192 | minified output has no whitespace outside key and string text |
| Properties.CompactNotLonger | prettyijson.py:84-186 | the compact layout of any value is no longer than its pretty layout |
| Properties.MinifyNotLongerThanPretty | prettyijson.py:70-196 | for every document and every indent setting, the minified output is no longer than the pretty output |
| Failures.PrettyFailsOnParseError | prettyijson.py:145-148 | a stream with a parse error anywhere produces no output |
| Failures.PrettyReportsParseError | prettyijson.py:145-148 | when everything before the parse error was handled, the parse error is what is reported |
| Failures.PrettyErrors | prettyijson.py:77-148 | pretty-printing fails only with a parse error or a seek before the start of the buffer |
| Failures.MinifyFailsOnParseError | prettyijson.py:193-196 | a stream with a parse error anywhere produces no output |
| Failures.MinifyReportsParseError | prettyijson.py:193-196 | when everything before the parse error was handled, the parse error is what is reported |
| Failures.MinifyRunBound | prettyijson.py:159-188 | once prevEvent is bound, only a bad seek or a parse error can stop the loop |
| Failures.MinifyUnbound | prettyijson.py:162-175 | minify reads its unbound prevEvent exactly when the first event is end_map or end_array; every other failure is a bad seek or a parse error |
| Failures.EmptyInput | prettyijson.py:142-144 | with no events at all, the final seek goes before the start of the buffer, in both commands (also lines 190-192) |
| Scenarios.ObjectWithArrayPretty | prettyijson.py:84-143 | `{"a":1,"b":[1,2,3]}` with a 2-space indent yields `{\n  "a": 1,\n  "b": [1, 2, 3]\n}` |
| Scenarios.ObjectWithArrayMinify | prettyijson.py:159-192 | the same document minifies to `{"a":1,"b":[1,2,3]}` |
| Scenarios.EmptyObject | prettyijson.py:92-95 | `{}` yields `{}` in both modes, for any indent (also lines 163-164) |
| Scenarios.EmptyArray | prettyijson.py:109-111 | `[]` yields `[]` in both modes, for any indent (also lines 171-172) |
| Scenarios.VerbatimBothModes | prettyijson.py:128-136 | `{"x": 1.50, "y": "a\"b"}` keeps `1.50` and `"a\"b"` unchanged in both modes |
| Scenarios.TrailingComma | prettyijson.py:145-148 | `{"a":1,}`, whose parse fails after the `1`, gives no output in either mode |
| Scenarios.ScalarAfterArray | prettyijson.py:123-138 | `[[1],2]` pretty-prints as `[[1],\n2]`: a scalar after a nested array keeps the line break |
| Scenarios.ObjectInArray | prettyijson.py:112-116 | `[{"a":1}]` pretty-prints with the `]` on a line of its own |

## Left out

- Sublime Text plumbing is not part of this model, because it is host-editor API rather than formatting logic:
  - `BaseProcessCommand`, `run`, region and selection looping, `view.replace`;
  - syntax switching, `detect_indentation`;
  - `sublime.status_message`, so the `"Invalid JSON: %s"` message is not built.
- `ijson.parse` is not part of this model: the vendored library's source is not available. The input is the event sequence. A JSON error the parser raises is a `ParseError(message)` event, and events after it are never reached.
- The `prefix` part of each event triple is never read, so it is dropped.
- The `StringIO` context managers and `StringIO(s)` for the input are left out. Only the output buffer's seek/write/truncate/getvalue are modelled.
- `self.settings.get("json_indent", 4)` is left out: the setting is a parameter, an integer or a string. Other setting types are not modelled. One example is a Python `bool`, which `isinstance(..., int)` would accept.
- A number event's value is its raw text, as `do_translate=False` gives it. A scalar payload is any string; escapes are passed through, never checked or re-escaped.
- `Output.Lower`: only ASCII letters are lowered. `str(bool)` only produces ASCII.
- Idempotence and structural equivalence of the output are not stated. Both need a JSON parser over the output text, and that parser is the part of ijson not modelled.
- `Properties.MinifyNoDangling`: stated only for documents whose numbers are number lexemes and whose keys and strings have no `,` directly before `}` or `]`. Payload text is copied verbatim, so a document without those restrictions can produce `,]` inside a string.
- `Properties.PrettyNoDangling`: the same restriction as `Properties.MinifyNoDangling`, and also an indent unit without a comma, since the indent string from the setting is copied verbatim.
- `Properties.MinifyHasNoBlanks`: stated only for documents whose numbers are number lexemes, because a number's text is copied verbatim.
- The layout theorems say nothing about streams that are not the events of a document. Examples are an unbalanced stream, or a key with no value. On those streams the model still does what the code does, because `Process` equals the machine on every input, but no nice layout is claimed.

Behaviour of the code that the model keeps as it is:
- **Empty input.** Whitespace-only text makes ijson raise, so `process` returns `None` (`InvalidJson`) and `run` replaces nothing (prettyijson.py:51-53, 58-60). An event sequence with no events at all makes the final `seek(tell() - 2)` (or `- 1`) raise `ValueError` (`NegativeSeek`, `Failures.EmptyInput`).
- **Unbound `prevEvent` in minify.** `MinifyIjsonCommand.process` never initialises `prevEvent`, so a stream whose first event is `end_map` or `end_array` raises `UnboundLocalError` (`UnboundPrevEvent`, `Failures.MinifyUnbound`). On the events of a document this never happens.
- **Layout quirk.** In pretty mode, a scalar that follows a nested array inside an array keeps the `",\n"` written after the array, so it starts a new line at column 0 (`Scenarios.ScalarAfterArray`). `Layout.Pretty` states this layout (`Layout.ItemSep`); it is not corrected.
