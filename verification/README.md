# Crntl reader: value model, tree builder and read loop

A Dafny model of the Swift layer of the Crntl reader (`Parser/Parser.swift`).
Crntl reads a Lisp/EDN-style text format. A C lexer (`crntl_read`) hands out
one classified node per call. This layer turns each node into a typed
`Value` tree and runs the read loop that collects top-level values until the
lexer reports End or Error.

Modules, one per part of the source file:

- `Values` (`values.dfy`): the `Value` hierarchy as one closed datatype.
  - The sentinels are `End` and `Error(message)`.
  - Atoms (`Int`, `Float`, `Symbol`, `Keyword`, `String`, `Char`) are `Atom(kind, text)`.
  - `List`, `Set` and `Vector` are `Sequence(kind, contents)`, so they differ only in their kind tag.
  - `Dictionary(entries)` holds ordered key/value pairs.
  - `Tagged(tag, content)` keeps the tag symbol's text, because the Swift field is typed `SymbolValue`.
  - The seven reader-macro wrappers are `Boxed(kind, content)`.
- `Nodes` (`nodes.dfy`): the lexer's output as an inductive `Node`.
  - A node is a kind discriminator plus a payload.
  - The payload is an atom token with its wide-character buffer, a sequence of children, a sequence of key/value pairs, a tag node plus a payload node, or one boxed child.
  - The C linked lists (`head_item`/`next`) become sequences.
  - `Buildable` says what the builder demands of a node. The payload must have the shape its kind selects. A known atom's buffer must hold at least its terminator. A tagged node's tag must be a symbol atom: the source force-casts it with `as! SymbolValue`.
- `Builder` (`builder.dfy`): `object(for_value:)` (`Build`) and the initialisers it dispatches to. `BuildShape` states the dispatch table. Decoding is a parameter: a total function that may fail.
- `Utf32` (`utf32.dfy`): a reference one-unit-per-character decoder. It is used only to state the builder's round trip.
- `Unbuild` (`unbuild.dfy`): a reference inverse of the builder. With any decoder, every value the builder produces has only the builder's own messages on its `Error`s. Under the UTF-32 reference decoder, every such value is also produced, so under that decoder the builder's image is exactly these values.
- `Reader` (`reader.dfy`): the read loop `parse(at_path:)`.
  - `Parse` opens the file or fails; `ReadValues` is the loop as a method.
  - The stream is the sequence of nodes the lexer would return. Opening the file is a boolean.
  - Ghost counters record the `crntl_freevalue` and `fclose` calls.
  - `ReadLoop` and `ParseFile` state the same outcome without a loop.
- `Scenarios` (`scenarios.dfy`): concrete sessions, such as an empty input, `1 2 3`, `1 )bad(`, `#foo 1`, an undecodable atom and an error nested in a list.

Three facts about the code shape the model:

- Nothing in `object(for_value:)` keeps End or Error out of nested positions. An unknown token or node kind inside a list builds to a nested `Error`, and the read loop inspects only top-level values, so that read succeeds. `Scenarios.NestedErrorDoesNotStopTheRead` shows this.
- The builder has three diagnostics of its own: `Error encountered while parsing` for an Error node, `Unknown primitive value` for an unknown token type and `Unknown composite value` for an unknown node kind. The read loop adds `File does not exist` for a file that cannot be opened.
- A tag that is not a symbol traps on the forced cast `as! SymbolValue` (`Parser/Parser.swift`, line 216), so `Buildable` requires a symbol tag.

## Model

| member | source | states |
|---|---|---|
| Builder.AtomTextDropsTerminator | Parser/Parser.swift:42-45 | For a buffer of code units followed by a terminator of any value, the atom text is the decoding of the units alone. When decoding fails the text is `PARSEFAILED`, not an error. |
| Builder.AtomText | Parser/Parser.swift:41-45 | No contract of its own; its behaviour on a buffer with its terminator is stated by `Builder.AtomTextDropsTerminator`. |
| Builder.Build | Parser/Parser.swift:233-290 | No contract of its own; its dispatch table is `Builder.BuildShape`, and its image is stated by `Unbuild.BuildIsProducible` and `Unbuild.BuildUnbuild`. |
| Builder.BuildShape | Parser/Parser.swift:233-290 | The dispatch table. Error and End nodes give `Error("Error encountered while parsing")` and `End` without reading the payload. A known token gives the atom of its kind. An unknown token gives `Error("Unknown primitive value")` and an unknown kind gives `Error("Unknown composite value")`. List/Set/Vector keep the child count and give `contents[i] == build(child i)` under the node's own kind. Dictionary gives entry i as `(build(k_i), build(v_i))`. For Tagged, the tag builds to a Symbol whose text is kept and the payload is built. Each wrapper wraps the built child. |
| Builder.SequenceKindsDifferOnlyInTag | Parser/Parser.swift:164-180 | List, Set and Vector nodes over the same children build to the same contents. |
| Builder.BuildItems | Parser/Parser.swift:146-153 | The item loop builds one value per child, in child order. |
| Builder.BuildEntry | Parser/Parser.swift:200-202 | No contract of its own; one key/value pair built as key then value. `Builder.BuildEntries` states the entry loop in terms of it. |
| Builder.BuildEntries | Parser/Parser.swift:196-205 | The entry loop builds one entry per key/value pair, in source order, and keeps duplicate keys. |
| Unbuild.AtomTextOfEncoding | Parser/Parser.swift:42-45 | The text of a buffer made of an encoded string plus any terminator unit is that string. |
| Unbuild.BuildUnbuild | Parser/Parser.swift:233-290 | Round trip: every value whose errors carry builder messages is built back exactly from the inverse's node, under UTF-32 decoding. |
| Unbuild.BuildIsProducible | Parser/Parser.swift:233-290 | With any decoder, every built value has only the three builder messages on its errors, at any depth. |
| Utf32.DecodeEncode | Parser/Parser.swift:42-44 | The reference decoder inverts the one-unit-per-character encoding. |
| Utf32.EncodeDecode | Parser/Parser.swift:42-44 | The other half of the reference round trip: a successful decoding encodes back to the same units. |
| Reader.StopIndex | Parser/Parser.swift:314-334 | The loop stops at the first node that builds to End or Error. Every earlier node builds to a data value. |
| Reader.ReadLoop | Parser/Parser.swift:314-334 | No contract of its own; the loop-free reference for the read loop. `Reader.ReadLoopOutcome` states what it returns, and `Reader.ReadValues` is proved equal to it. |
| Reader.ParseFile | Parser/Parser.swift:298-335 | No contract of its own; the loop-free reference for `parse(at_path:)`. `Reader.Parse` is proved equal to it, and `Scenarios.MissingFileYieldsOneError` states its failed-open case. |
| Reader.ReadLoopOutcome | Parser/Parser.swift:321-333 | On Error the result is that error alone. On End it is the values of all earlier nodes, in stream order, with End left out. A result is either a single Error or free of End and Error. |
| Reader.ErrorDiscardsEarlierValues | Parser/Parser.swift:323-326 | Fail-fast: an Error after any data nodes returns `[thatError]`, and the earlier values are discarded. |
| Reader.EndReturnsEarlierValues | Parser/Parser.swift:327-329 | End after data nodes returns their built values in order. |
| Reader.NodesAfterStopAreIgnored | Parser/Parser.swift:314-334 | Nodes after the stopping node never change the result. |
| Reader.Parse | Parser/Parser.swift:298-305 | If the file cannot be opened, the result is `[Error("File does not exist")]`, no node is read and nothing is closed. Otherwise the result is the read outcome, and the file is closed once. |
| Reader.ReadValues | Parser/Parser.swift:310-335 | The loop returns the read outcome and reads exactly the nodes up to the stopping one. Every node read is freed exactly once on the Error, End and data branches, so frees equal reads. |
| Scenarios.EmptyInputYieldsNothing | Parser/Parser.swift:327-329 | A stream that starts with End gives an empty result. |
| Scenarios.FormsKeepStreamOrder | Parser/Parser.swift:330-333 | Three Int forms come back as three Ints, in order. |
| Scenarios.MalformedSecondFormDiscardsFirst | Parser/Parser.swift:323-326 | An Int form followed by an Error node gives only the error. |
| Scenarios.MissingFileYieldsOneError | Parser/Parser.swift:299-301 | A file that cannot be opened gives `[Error("File does not exist")]`. |
| Scenarios.TaggedLiteral | Parser/Parser.swift:215-218 | `#foo 1` builds to `Tagged("foo", Int "1")`. |
| Scenarios.UndecodableAtomIsNotAnError | Parser/Parser.swift:42-45 | An atom whose units do not decode gives the `PARSEFAILED` atom, and the read goes on. |
| Scenarios.NestedErrorDoesNotStopTheRead | Parser/Parser.swift:255-256 | An unknown token inside a list gives a nested Error, and the read still succeeds. |

## Left out

- `parse(string:)` (temporary-file staging with UUID retry, file creation and removal) is file-system I/O that only delegates to `parse(at_path:)`.
- `FileHandle`, `fdopen` and `fclose` are reduced to whether the file could be opened and a ghost count of close calls.
- `crntl_read`, `crntl_state_init` and `TokenizerState` belong to the C lexer, which is not part of this model. The lexer's output is the input sequence of nodes. The model requires that, once the file is open, some node in the stream builds to End or Error, because the lexer reports End at the end of the file.
- Foundation's UTF-32 little-endian decoding is the `Decoder` parameter. Byte order and byte-order-mark handling are below the level of code units.
- `debugDescription` is presentation only.
- `RawValue` and its `deinit` are native memory management that the read loop does not use. The ghost free counter covers the observable obligation.
- The convenience initialisers `SequenceValue.init(_ values:)` and `init()` are only construction helpers.
- Pointer traversal (`pointee`, `next`) is replaced by sequences. The model puts no bound on nesting depth, and so it does not capture stack exhaustion on deeply nested input.
- Reader.ReadValues: the read and free counts are ghost out-parameters; they record the native calls and are not part of the returned result.
- Reader.Parse: the read, free and close counts are ghost out-parameters; they record the native calls and are not part of the returned result.
