# sioba / niceterminal terminal engine, modelled in Dafny

This project models the engine that sits between a terminal widget (xterm.js in
a browser) and whatever produces terminal output: a subprocess, a socket or a
Python function. It covers two generations of the engine: the newer `sioba`
package and the older `niceterminal` package.

- **Interface lifecycle** (`SiobaBase`, `LegacyBase`, with `Events`):
  - the INITIALIZED → STARTED → SHUTDOWN state machine and its state-dependent errors;
  - fan-out to the registered send, receive, shutdown and title callbacks;
  - optional `\r` → `\r\n` conversion on output;
  - geometry negotiation over every attached client (`Geometry`);
  - reference counting with automatic shutdown;
  - a byte scroll-back that keeps only the newest N bytes (`Window`);
  - the line scroll-back and scrolling region of `EventsScreen.index`.
- **Screen dump** (`Sgr`, `Dump`): turns the emulator grid back into text.
  - SGR sequences (section 8.3.117 of ECMA-48) restore each cell's style, and only the changes are emitted.
  - CUP sequences (section 8.3.21 of ECMA-48) place the cursor.
  - The dump is proved against a replay semantics: a terminal reading the dump draws every cell, in order, in the style that cell is shown in.
- **Capture-mode line editor** (`Capture`, `SiobaFunction`, `LegacyFunction`):
  - the DISCARD, ECHO, INPUT and GETPASS modes of the function interfaces;
  - what each typed chunk does to the line being edited, and what is echoed back;
  - when a line is handed to the waiting function;
  - the blocking `input`/`getpass` calls, split into a begin step and a complete step.
- **URI and configuration handling** (`Structs`, `Context`, with `Text`):
  - query-parameter conflict resolution;
  - string-to-type casting;
  - configuration layering and lookup.
- **Scheme registry** (`Registry`):
  - case-insensitive registration of URI schemes;
  - lazy discovery and caching of handlers.

Classes whose fields the Python code updates in place are Dafny classes. Their
methods state the whole new state, usually through a ghost `AllFields()`
snapshot. A Python subclass is a class holding its base-class object.

Things outside the engine are inputs or logs:

- Callbacks are opaque identities held in sets. Calling them is recorded in an `effects` log, one entry per fan-out, with no order among the callbacks of one set.
- Parsed URIs, discovered entry points and the emulator's colour tables are parameters.
- Queues are sequences. A blocking call is a begin step and a complete step.
- An exception is an `Outcome`/`Result` error value, one `Error` constructor per Python exception class.

## Model

| member | source | states |
|---|---|---|
| Bytes.ReplaceByte | sioba/src/sioba/base.py:218-219 | data that does not contain the byte is returned unchanged |
| Bytes.CollapseExpandsCr | sioba/src/sioba/base.py:218-219 | widening every `\r` to `\r\n` loses nothing: collapsing `\r\n` back gives the original bytes |
| Bytes.DropExpandsLf | sioba/src/sioba/function.py:129-130 | widening every `\n` to `\r\n` is undone by dropping the `\r` before each `\n` |
| Window.KeepLast | sioba/src/sioba/base.py:358-362 | the kept bytes are a suffix of the input, of length min(n, length), and empty for a limit ≤ 0 |
| Window.KeepLastAppend | sioba/src/sioba/base.py:358-362 | trimming after every send gives the same buffer as trimming once over everything sent |
| Window.KeepLastFits | sioba/src/sioba/base.py:360-362 | a buffer within the limit is kept whole |
| Text.Lower | sioba/src/sioba/registry.py:19 | same length, each letter A-Z mapped to its lower-case form, every other character kept |
| Text.LowerIdempotent | sioba/src/sioba/registry.py:43-44 | lower-casing twice is lower-casing once, so a stored scheme matches a lower-cased lookup |
| Text.IntToString | sioba/src/sioba/base.py:604 | the decimal text of an integer is non-empty and starts with `-` exactly for a negative number |
| Text.NatToStringValue | sioba/src/sioba/context.py:31-32 | the digits of a natural number spell its value |
| Text.ParseIntPadding | sioba/src/sioba/context.py:31-32 | `int()` accepts a numeral padded with ASCII whitespace and rejects one padded with U+001C to U+001F |
| Text.ParseIntToString | sioba/src/sioba/context.py:31-32 | `int(str(n)) == n` for every integer |
| Text.Join | sioba/src/sioba/base.py:575 | joining no parts gives empty text; one part gives that part; more parts give the join of all but the last, the separator, then the last part |
| Structs.ParamAsWritten | sioba/src/sioba/structs.py:66-92 | `param` as written: `ValueError` exactly for ERROR with more than one value; the default for an absent key or an empty list |
| Structs.ParamAsWrittenErrorDropsSingle | sioba/src/sioba/structs.py:84-92 | with exactly one value, ERROR returns the default (None), not the value |
| Structs.Param | sioba/src/sioba/structs.py:83-92 | corrected `param`: the same error cases and the same answers as written for FIRST, LAST and ARRAY; ERROR, when it does not raise, answers as FIRST does |
| Structs.ParamStrategiesAgree | sioba/src/sioba/structs.py:86-91 | FIRST gives the first value, LAST the last one, ARRAY the whole list; a successful ERROR agrees with FIRST |
| Structs.FirstParam | sioba/src/sioba/structs.py:130 | `param(key)` with the default strategy: present exactly when the key has values, and then the first one |
| Structs.LoadFromUri | sioba/src/sioba/structs.py:128-141 | loading URI details never changes `scrollback_buffer_size` |
| Structs.LoadUriDetailsFields | sioba/src/sioba/structs.py:128-141 | rows and cols become the parsed integers; `convertEol` and `auto_shutdown` become the truthiness of the raw text (so `"0"` gives True); absent fields are unchanged |
| Structs.LoadUriDetailsFailure | sioba/src/sioba/structs.py:130-133 | loading fails exactly when rows or cols is present but is not an integer |
| Structs.LoadUriDetailsGeometryRoundTrip | sioba/src/sioba/structs.py:130-133 | a query holding the decimal texts of rows and cols loads exactly those numbers and nothing else |
| Structs.InterfaceConfig.constructor | sioba/src/sioba/structs.py:117-126 | the dataclass holds the given field values |
| Structs.InterfaceConfig.LoadUriDetails | sioba/src/sioba/structs.py:128-141 | the new field values and outcome are those of `LoadFromUri` on the old values |
| Structs.InterfaceConfig.Update | sioba/src/sioba/structs.py:148-152 | every field set in the argument overwrites this one's; the rest are kept |
| Structs.InterfaceConfig.Copy | sioba/src/sioba/structs.py:154-156 | a fresh object with equal field values |
| Structs.OverlayLaws | sioba/src/sioba/structs.py:148-152 | updating with nothing set or with oneself changes nothing; updates compose associatively; a set field wins |
| Context.Cast | sioba/src/sioba/context.py:17-40 | the cast fails only with `ValueError` (an unparsable integer) |
| Context.CastIsPlainCastOfUnwrapped | sioba/src/sioba/context.py:21-25 | casting to `Optional[T]` is casting to `T` |
| Context.CastBoolExamples | sioba/src/sioba/context.py:37-38 | `"0"` and `"no"` give False; `"TRUE"` and `"Yes"` give True |
| Context.CastIntRoundTrip | sioba/src/sioba/context.py:31-32 | the decimal text of any integer casts back to it, also through `Optional[int]` |
| Context.Construct | sioba/src/sioba/context.py:43-69 | constructing the dataclass fails exactly on an undeclared keyword; otherwise every declared field is set and every given keyword is kept |
| Context.ConstructField | sioba/src/sioba/context.py:43-69 | a field not given takes its declared default |
| Context.FromUriFields | sioba/src/sioba/context.py:72-102 | an extra keyword wins; otherwise a declared field in the query is the cast of its first value; otherwise the URI component; otherwise the default |
| Context.FromUriKeepsQuery | sioba/src/sioba/context.py:77-98 | when neither the query nor the extra keywords have a `query` key, `query` holds the whole parsed query; unknown query keys become no field |
| Context.FromUriFailure | sioba/src/sioba/context.py:94-102 | `from_uri` fails exactly when a declared query value does not cast or a keyword is undeclared |
| Context.FromUriGeometry | sioba/src/sioba/context.py:94-98 | `?rows=R&cols=C` yields rows R and cols C, with the query kept |
| Context.InterfaceContext.constructor | sioba/src/sioba/context.py:43-69 | an instance holds a value for every declared field |
| Context.InterfaceContext.AsDict | sioba/src/sioba/context.py:104-105 | `asdict` has exactly the declared field names, each mapped to the instance's value for it |
| Context.InterfaceContext.Update | sioba/src/sioba/context.py:111-115 | every non-None field of the argument overwrites this one's; the rest are kept |
| Context.InterfaceContext.Copy | sioba/src/sioba/context.py:107-109 | a fresh instance of the same schema with equal fields |
| Context.InterfaceContext.GetAsWritten | sioba/src/sioba/context.py:117-123 | `get` as written: a declared field's value; None for any other key while `extra_params` is empty; a non-empty dict or parsed query in `extra_params` answers `.get(key, default)`, a query with the key's list of values; any other truthy value raises `AttributeError` |
| Context.InterfaceContext.Get | sioba/src/sioba/context.py:117-123 | corrected `get`: a declared field's value, else `extra_params.get(key, default)` for a dict or a parsed query, empty or not; it agrees with the as-written version whenever `extra_params` is non-empty |
| Context.GetAsWrittenIgnoresDefault | sioba/src/sioba/context.py:121-123 | with empty `extra_params`, `get("colour", "blue")` gives None as written and `"blue"` once corrected |
| Context.FromUri | sioba/src/sioba/context.py:71-102 | the class method builds a fresh context holding exactly the attributes `FromUriAttrs` computes, or returns its error |
| Registry.RegisterAll | sioba/src/sioba/registry.py:17-23 | registration passes or fails with `KeyError`, and never changes or removes an existing entry |
| Registry.RegisterAllFails | sioba/src/sioba/registry.py:18-21 | registration fails exactly when a lower-cased scheme is already present or repeats an earlier one in the same call |
| Registry.RegisterAllStopsAtClash | sioba/src/sioba/registry.py:18-22 | at the first clashing scheme registration raises `KeyError`, and the schemes before it stay registered to the handler |
| Registry.RegisterAllSucceeds | sioba/src/sioba/registry.py:18-22 | on success every lower-cased scheme maps to the handler, and no other key is added |
| Registry.ListInterfaces | sioba/src/sioba/registry.py:26-32 | one lower-cased name per discovered entry, in discovery order |
| Registry.FirstMatch | sioba/src/sioba/registry.py:49-53 | the first entry whose lower-cased name is the scheme, or none when no entry matches |
| Registry.Resolve | sioba/src/sioba/registry.py:43-70 | a registered scheme gives its stored handler without discovery; otherwise the first entry point of that name gives its target, or `TypeError` when that is not an `Interface` subclass; a failure leaves the registry unchanged, a success leaves the scheme mapped to the handler returned |
| Registry.ResolveIgnoresCase | sioba/src/sioba/registry.py:43-44 | resolving a scheme and its lower-cased form give the same result |
| Registry.ResolveUnknown | sioba/src/sioba/registry.py:48-58 | `ValueError` exactly when the scheme is neither registered nor the name of a discovered entry |
| Registry.ResolveCaches | sioba/src/sioba/registry.py:48-68 | resolving again after a success gives the same handler and leaves the registry as it is |
| Registry.ResolveLoadsInterfacesOnly | sioba/src/sioba/registry.py:50-66 | a handler found by discovery is an `Interface` subclass, the target of the first entry point of that name, and is cached under the scheme |
| Registry.RegisterThenResolve | sioba/src/sioba/registry.py:18-22 | after a registration, each of its schemes, in any letter case, resolves to the handler without discovery |
| Registry.InterfaceRegistry.constructor | sioba/src/sioba/registry.py:8 | the registry starts empty |
| Registry.InterfaceRegistry.Register | sioba/src/sioba/registry.py:10-24 | the new registry and the outcome are those of `RegisterAll` |
| Registry.InterfaceRegistry.InitInterface | sioba/src/sioba/registry.py:34-70 | the handler and the new registry are those of `Resolve` |
| Events.AfterStart | sioba/src/sioba/base.py:150-158 | `start` never moves backwards; it reaches STARTED from everything but SHUTDOWN; it changes only INITIALIZED |
| Events.AfterShutdown | sioba/src/sioba/base.py:169-172 | `shutdown` never moves backwards; it reaches SHUTDOWN from everything but INITIALIZED; it changes only STARTED |
| Events.LifecycleSteps | sioba/src/sioba/base.py:142-177 | repeating `start` or `shutdown` changes nothing more; start and shutdown commute except on a fresh interface |
| Geometry.MergeFields | sioba/src/sioba/base.py:280-281 | the client's entry gains the reported keys with the reported values, keeps its other values, and no other client changes |
| Geometry.MinimumGeometry | sioba/src/sioba/base.py:285-291 | the loop succeeds exactly when every client reports rows and cols (else `KeyError`), and returns the smallest of each |
| Geometry.ReporterBounds | sioba/src/sioba/base.py:279-293 | the negotiated rows never exceed what the reporting client sent, and equal it when no other client reports less |
| Geometry.MinIsUnique | sioba/src/sioba/base.py:287-291 | the minimum is fixed by the client table alone, so the order the clients are visited in does not matter |
| Sgr.CodeFor | sioba/src/sioba/base.py:551-556 | a code is found exactly when the colour is in the table, and it is that colour's code |
| Sgr.AttributeChangesTracks | sioba/src/sioba/base.py:517-563 | afterwards the tracked flags are the cell's; a tracked colour is the cell's unless a reset hit a colour missing from the table |
| Sgr.ResetComesFirst | sioba/src/sioba/base.py:506-518 | the codes start with `0` exactly when a tracked flag is off in the cell or a colour differs |
| Sgr.SecondCallEmitsNothing | sioba/src/sioba/base.py:501-565 | for a cell whose colours are default or in the tables, a second call emits nothing and keeps the state |
| Sgr.TrackedIsShown | sioba/src/sioba/base.py:501-565 | from any reachable state, the tracked state afterwards is the style the cell is shown in, whatever came before |
| Sgr.ChangesReachTracked | sioba/src/sioba/base.py:501-565 | a terminal applying the emitted codes (with SGR meaning) ends in exactly the style the dumper tracks |
| Sgr.GetAttributeChanges | sioba/src/sioba/base.py:501-565 | the nested `get_attribute_changes`, mutating the tracked state, computes `AttributeChanges` |
| Sgr.SetFlags | sioba/src/sioba/base.py:525-548 | the six flag steps emit codes 1, 3, 4, 5, 7, 9 in that order, for flags set in the cell and not already tracked (all set ones after a reset) |
| Sgr.SetLowFlags | sioba/src/sioba/base.py:525-536 | bold, italics and underscore end up tracked when the cell has them |
| Sgr.SetHighFlags | sioba/src/sioba/base.py:538-548 | blink, reverse and strikethrough end up tracked when the cell has them |
| Sgr.FlagStep | sioba/src/sioba/base.py:526-528 | one flag's code is emitted when the cell has it and it is untracked or reset, and the flag is tracked afterwards |
| Sgr.ChangeColour | sioba/src/sioba/base.py:550-563 | a colour code is emitted only for a changed colour found in the table; a colour missing from the table leaves the tracked colour alone |
| Sgr.FindCode | sioba/src/sioba/base.py:552-556 | the table scan finds a code of the colour exactly when the colour is in the table |
| Dump.Params | sioba/src/sioba/base.py:554-575 | one decimal parameter per code, in order |
| Dump.RenderShape | sioba/src/sioba/base.py:575 | an SGR piece renders as `ESC [ … m`, a cursor move as `ESC [ … H`, a character as itself |
| Dump.ResetText | sioba/src/sioba/base.py:487 | the reset renders as `ESC[0m` |
| Dump.ScreenRowAt | sioba/src/sioba/base.py:584-585 | a screen row is `columns` cells wide, and cell x is `buffer[y][x]` (a blank cell where the row stores none) |
| Dump.ScreenRowsWidth | sioba/src/sioba/base.py:581-585 | there are `lines` screen rows, each `columns` wide |
| Dump.ScreenCellsAt | sioba/src/sioba/base.py:581-593 | the screen contributes exactly `lines × columns` cells in row-major order: cell (y, x) is at index y·columns + x |
| Dump.StyledAt | sioba/src/sioba/base.py:577-578 | each cell is drawn once, in order, in the style it is shown in |
| Dump.RowPaints | sioba/src/sioba/base.py:584-593 | replaying a row's text draws its cells in their shown styles and leaves the terminal in the tracked style |
| Dump.ScrollbackPaints | sioba/src/sioba/base.py:568-578 | replaying the scroll-back text draws every scroll-back cell, line by line, in its shown style |
| Dump.ScreenPaints | sioba/src/sioba/base.py:581-601 | replaying the screen rows, each closed by a reset, draws every screen cell in its shown style |
| Dump.ScrollbackDumpReplays | sioba/src/sioba/base.py:485-605 | replaying the newer dump from any style draws the scroll-back cells and then the screen cells, each in its shown style |
| Dump.PositionedRowsPaint | niceterminal/src/niceterminal/interface/base.py:388-408 | replaying rows placed by `ESC[{y+1};1H` and closed by a reset draws their cells in their shown styles |
| Dump.PositionedDumpReplays | src/niceterminal/interface/persistant.py:151-175 | replaying an older dump draws exactly `lines × columns` cells, row by row, each in its shown style |
| Dump.DumpFrames | sioba/src/sioba/base.py:485-605 | both dumps open with `ESC[0m` and close with `ESC[{lines};1H` |
| Dump.WriteRow | sioba/src/sioba/base.py:584-593 | the cell loop writes the text of the row's pieces and ends in their tracked style |
| Dump.WriteScrollback | sioba/src/sioba/base.py:568-578 | the scroll-back loop writes `\n\r` and the cells of each line, carrying the style across lines |
| Dump.WriteScreen | sioba/src/sioba/base.py:581-601 | the screen loop writes `\n\r`, the cells and `ESC[0m` for each of the `lines` rows |
| Dump.DumpWithScrollback | sioba/src/sioba/base.py:485-605 | the newer `dump_screen_state` text is the rendering of `ScrollbackDump` |
| Dump.DumpPositioned | niceterminal/src/niceterminal/interface/base.py:305-412 | the older `dump_screen_state` text is the rendering of `PositionedDump` |
| Capture.React | sioba/src/sioba/function.py:178-228 | Ctrl-C requests shutdown in every mode; DISCARD echoes nothing; ECHO echoes the chunk with a lone `\r` widened; Enter completes the buffered line; backspace drops one byte and echoes `\b \b` only in INPUT on a non-empty buffer; other chunks are appended whole and echoed only in INPUT; GETPASS echoes only `\r\n` |
| Capture.TypedLineArrives | sioba/src/sioba/function.py:198-228 | chunks typed and then Enter hand over exactly the typed bytes and leave an empty buffer; INPUT echoes every chunk, GETPASS only the newline |
| Capture.CtrlCReleasesEmptyLine | sioba/src/sioba/function.py:207-212 | Ctrl-C while editing ends the session and releases the waiting call with an empty line |
| Capture.BackspaceUndoesByte | sioba/src/sioba/function.py:214-228 | backspace undoes one typed byte; in INPUT the byte is echoed and then erased with `\b \b` |
| Capture.GetPassNeverEchoes | sioba/src/sioba/function.py:197-228 | over any session in GETPASS mode, every echo is `\r\n` |
| Capture.LegacyCapture | niceterminal/src/niceterminal/interface/function.py:186-215 | the older `capture` completes a line exactly on a lone `\r`; outside INPUT it echoes only nothing or `\r\n` |
| Capture.EditorsAgree | niceterminal/src/niceterminal/interface/function.py:186-215 | in INPUT and GETPASS, apart from Ctrl-C, the newer editor changes the buffer, completes lines and echoes exactly as the older one |
| Capture.LegacyReceive | niceterminal/src/niceterminal/interface/function.py:217-241 | empty chunks are ignored; DISCARD sends nothing; ECHO sends the chunk as is; nothing empty is ever sent |
| SiobaBase.OverlayLaws | sioba/src/sioba/base.py:37-41 | updating with nothing set or with oneself changes nothing; updates compose associatively |
| SiobaBase.Layered | sioba/src/sioba/base.py:106-110 | each setting is the argument's when set, else the class default's when set, else `DEFAULT_CONFIG`'s |
| SiobaBase.InterfaceConfig.constructor | sioba/src/sioba/base.py:25-30 | the dataclass holds the given settings |
| SiobaBase.InterfaceConfig.Update | sioba/src/sioba/base.py:37-41 | every setting given in the argument overwrites this one's; the rest are kept |
| SiobaBase.InterfaceConfig.Copy | sioba/src/sioba/base.py:43-45 | a fresh object with equal settings |
| SiobaBase.Outgoing | sioba/src/sioba/base.py:218-219 | without `convertEol` the bytes pass unchanged; with it, collapsing `\r\n` gives the data back; data without `\r` is never changed |
| SiobaBase.OutgoingDoublesLineFeed | sioba/src/sioba/base.py:218-219 | with `convertEol`, an existing `\r\n` is sent as `\r\n\n` |
| SiobaBase.ClientMetadata | sioba/src/sioba/base.py:297-301 | an unknown client gets `{}` |
| SiobaBase.MetadataRoundTrip | sioba/src/sioba/base.py:279-301 | after a report, the client's metadata holds every reported value and its older values; other clients are unchanged |
| SiobaBase.Interface.constructor | sioba/src/sioba/base.py:91-135 | a fresh INITIALIZED interface with the given callbacks, size and auto-shutdown, and the layered configuration |
| SiobaBase.Interface.Start | sioba/src/sioba/base.py:142-161 | starts exactly a fresh interface; it is marked running, then `start_interface` runs; nothing else changes |
| SiobaBase.Interface.Shutdown | sioba/src/sioba/base.py:167-177 | only a running interface shuts down: `shutdown_interface` runs, the state becomes SHUTDOWN and the shutdown callbacks are called |
| SiobaBase.Interface.OnSendToControl | sioba/src/sioba/base.py:196-199 | adds the callback to the send set, nothing else |
| SiobaBase.Interface.OnReceiveFromControl | sioba/src/sioba/base.py:201-204 | adds the callback to the receive set, nothing else |
| SiobaBase.Interface.OnShutdown | sioba/src/sioba/base.py:256-259 | adds the callback to the shutdown set, nothing else |
| SiobaBase.Interface.OnSetTerminalTitle | sioba/src/sioba/base.py:242-245 | adds the callback to the title set, nothing else |
| SiobaBase.Interface.SendToControl | sioba/src/sioba/base.py:207-226 | `InterfaceNotStarted` before start; `TerminalClosedError` after shutdown; otherwise every send callback gets the `Outgoing` bytes, and empty data reaches none |
| SiobaBase.Interface.ReceiveFromControl | sioba/src/sioba/base.py:229-236 | every receive callback gets the data, in any state |
| SiobaBase.Interface.OnSetTerminalTitleHandle | sioba/src/sioba/base.py:248-254 | the title is recorded, then the title callbacks get it |
| SiobaBase.Interface.UpdateTerminalMetadata | sioba/src/sioba/base.py:279-295 | the report is merged; the size becomes the smallest rows and cols over all clients, and `set_terminal_size` is called; `KeyError` when a client lacks either |
| SiobaBase.Interface.SetGeometry | sioba/src/sioba/base.py:292-295 | stores the client table and the size, and records the `set_terminal_size` call |
| SiobaBase.Interface.GetTerminalMetadata | sioba/src/sioba/base.py:297-301 | the stored dictionary, or `{}` for an unknown client |
| SiobaBase.Interface.ReferenceIncrement | sioba/src/sioba/base.py:303-305 | the count goes up by one, nothing else changes |
| SiobaBase.Interface.ReferenceDecrement | sioba/src/sioba/base.py:307-313 | the count goes down by one (possibly below zero); a shutdown is scheduled exactly when it is ≤ 0 and `auto_shutdown` is set |
| SiobaBase.BufferedInterface.constructor | sioba/src/sioba/base.py:324-348 | an empty buffer with the given size limit, over a fresh interface |
| SiobaBase.BufferedInterface.SendToControl | sioba/src/sioba/base.py:350-364 | `InterfaceNotStarted` unless running, also after shutdown; the buffer becomes the newest `size` bytes of the raw data sent, never longer than the limit; then the base send |
| SiobaBase.BufferedInterface.GetTerminalBuffer | sioba/src/sioba/base.py:366-368 | the newest `size` bytes of everything sent |
| SiobaBase.ScrolledUpRows | sioba/src/sioba/base.py:411-413 | inside the margins each line becomes the one below it; the bottom line is emptied; lines outside are untouched |
| SiobaBase.ScrollbackKeepsNewest | sioba/src/sioba/base.py:407-409 | the scroll-back stays the newest `size` lines ever scrolled off, and the line just saved is its last one |
| SiobaBase.EventsScreen.constructor | sioba/src/sioba/base.py:379-390 | a blank screen of the given size with an empty scroll-back and no margins |
| SiobaBase.EventsScreen.Index | sioba/src/sioba/base.py:397-415 | on the bottom margin the top line is saved to a bounded scroll-back (`IndexError` for a negative size) and the region scrolls up; elsewhere only the cursor moves down |
| SiobaBase.KeepNewest | sioba/src/sioba/base.py:407-409 | the `pop(0)` loop leaves the newest `size` lines, and fails for a negative size |
| SiobaBase.ScrollRegion | sioba/src/sioba/base.py:411-413 | the row-moving loop and the removal of the bottom line produce `ScrolledUp` |
| SiobaBase.PersistentInterface.constructor | sioba/src/sioba/base.py:420-454 | a fresh interface and a blank screen of its size, with the scroll-back size given |
| SiobaBase.PersistentInterface.DumpScreenState | sioba/src/sioba/base.py:485-605 | the dump of the screen and its scroll-back, proved to replay as every cell in its shown style |
| SiobaBase.PersistentInterface.GetTerminalBuffer | sioba/src/sioba/base.py:607-610 | the dump of the interface's own screen |
| SiobaBase.PersistentInterface.GetTerminalCursorPosition | sioba/src/sioba/base.py:612-615 | the cursor as (row, column) |
| SiobaFunction.Printed | sioba/src/sioba/function.py:124-134 | the queued text gives the formatted text back when the `\r` before each `\n` is dropped; text without `\n` is queued as is |
| SiobaFunction.FunctionInterface.constructor | sioba/src/sioba/function.py:28-47 | empty buffer and queues, and a capture mode that starts as, and is restored to, the default capture state |
| SiobaFunction.FunctionInterface.Shutdown | sioba/src/sioba/function.py:91-96 | the send queue is closed, then the base shutdown runs; the state guard makes a second call do nothing |
| SiobaFunction.ShutdownNotificationsAsWritten | sioba/src/sioba/function.py:90-95 | as written, a `shutdown` that does not find STARTED runs no callbacks, and one that does runs them at most once per level of recursion |
| SiobaFunction.ShutdownAsWrittenRepeats | sioba/src/sioba/function.py:90-95 | as written, every level of the re-entered `shutdown` runs the shutdown callbacks, so they run more than once |
| SiobaFunction.FunctionInterface.Print | sioba/src/sioba/function.py:117-134 | `InterfaceNotStarted` before start; `InterfaceShutdown` after shutdown; otherwise the text is queued with `\n` widened |
| SiobaFunction.FunctionInterface.BeginCapture | sioba/src/sioba/function.py:137-150 | the same two guards; then the buffer is cleared, the mode switched and a non-empty prompt queued |
| SiobaFunction.FunctionInterface.Input | sioba/src/sioba/function.py:161-164 | `InterfaceNotStarted` before start, `InterfaceShutdown` after shutdown, and then nothing changes; otherwise the buffer is cleared, the mode set to INPUT and a non-empty prompt queued |
| SiobaFunction.FunctionInterface.Getpass | sioba/src/sioba/function.py:166-169 | `InterfaceNotStarted` before start, `InterfaceShutdown` after shutdown, and then nothing changes; otherwise the buffer is cleared, the mode set to GETPASS and a non-empty prompt queued |
| SiobaFunction.FunctionInterface.CompleteCapture | sioba/src/sioba/function.py:152-159 | takes the oldest line off the input queue and restores the default capture state; it waits while the queue is empty |
| SiobaFunction.FunctionInterface.ReceiveFromControl | sioba/src/sioba/function.py:171-232 | the two guards, then the chunk's `React` outcome: buffer, echo (lost once Ctrl-C closed the queue), completed line and shutdown; no other field of the interface changes |
| LegacyBase.AfterLegacyShutdown | niceterminal/src/niceterminal/interface/base.py:110-112 | the unguarded shutdown never moves backwards and never leaves an interface INITIALIZED |
| LegacyBase.ShutdownVersionsDiffer | niceterminal/src/niceterminal/interface/base.py:110-116 | the older shutdown agrees with the newer one except on a fresh interface, which it also closes; repeating it changes nothing more |
| LegacyBase.Interface.constructor | niceterminal/src/niceterminal/interface/base.py:23-57 | a fresh INITIALIZED interface with the given callbacks and size |
| LegacyBase.Interface.Launch | niceterminal/src/niceterminal/interface/base.py:94-103 | returns True exactly for a fresh interface, which becomes STARTED before `launch_interface`; otherwise False and nothing changes |
| LegacyBase.Interface.Start | niceterminal/src/niceterminal/interface/base.py:75-92 | launches exactly a fresh interface |
| LegacyBase.Interface.Shutdown | niceterminal/src/niceterminal/interface/base.py:109-116 | every call sets SHUTDOWN and calls the shutdown callbacks again |
| LegacyBase.Interface.OnSendToXterm | niceterminal/src/niceterminal/interface/base.py:126-129 | adds the callback to the send set, nothing else |
| LegacyBase.Interface.OnReceiveFromXterm | niceterminal/src/niceterminal/interface/base.py:131-134 | adds the callback to the receive set, nothing else |
| LegacyBase.Interface.OnShutdown | niceterminal/src/niceterminal/interface/base.py:150-153 | adds the callback to the shutdown set, nothing else |
| LegacyBase.Interface.OnSetTitle | niceterminal/src/niceterminal/interface/base.py:136-139 | adds the callback to the title set, nothing else |
| LegacyBase.Interface.OnSetTitleHandle | niceterminal/src/niceterminal/interface/base.py:141-148 | the title is recorded before the title callbacks get it |
| LegacyBase.Interface.SendToXterm | niceterminal/src/niceterminal/interface/base.py:157-172 | `InterfaceNotStarted` unless running, also after shutdown; empty data is dropped; otherwise every send callback gets the bytes unchanged |
| LegacyBase.Interface.ReceiveFromXterm | niceterminal/src/niceterminal/interface/base.py:174-182 | every receive callback gets the data, in any state |
| LegacyBase.Interface.TermClientMetadataUpdate | niceterminal/src/niceterminal/interface/base.py:200-216 | the report is merged; the size becomes the smallest rows and cols over all clients, and `set_size` is called; `KeyError` when a client lacks either |
| LegacyBase.Interface.SetGeometry | niceterminal/src/niceterminal/interface/base.py:213-216 | stores the client table and the size, and records the `set_size` call |
| LegacyBase.Interface.ReferenceIncrement | niceterminal/src/niceterminal/interface/base.py:65-66 | the count goes up by one, nothing else changes |
| LegacyBase.Interface.ReferenceDecrement | niceterminal/src/niceterminal/interface/base.py:68-73 | the count goes down by one; a shutdown is scheduled whenever it is ≤ 0 |
| LegacyBase.BufferedInterface.constructor | niceterminal/src/niceterminal/interface/base.py:222-228 | an empty buffer over a fresh interface |
| LegacyBase.BufferedInterface.SendToXterm | niceterminal/src/niceterminal/interface/base.py:230-244 | `InterfaceNotStarted` unless running; the buffer becomes the newest 1,000,000 bytes of everything sent; then the base send |
| LegacyBase.BufferedInterface.GetScreenDisplay | niceterminal/src/niceterminal/interface/base.py:246-248 | exactly the newest 1,000,000 bytes sent |
| LegacyBase.Screen.constructor | niceterminal/src/niceterminal/interface/base.py:254-258 | a blank screen of the given size with the cursor home |
| LegacyBase.PersistentInterface.constructor | niceterminal/src/niceterminal/interface/base.py:268-274 | a fresh interface with a blank screen of its size |
| LegacyBase.PersistentInterface.DumpScreenState | niceterminal/src/niceterminal/interface/base.py:305-412 | the positioned dump of the screen, proved to replay as every cell in its shown style |
| LegacyBase.PersistentInterface.GetScreenDisplay | niceterminal/src/niceterminal/interface/base.py:414-417 | the dump of the interface's own screen |
| LegacyBase.PersistentInterface.GetCursorPosition | niceterminal/src/niceterminal/interface/base.py:419-422 | the cursor as (row, column) |
| LegacyFunction.FunctionInterface.constructor | niceterminal/src/niceterminal/interface/function.py:46-52 | no line yet, not a password, and the capture mode starts as, and is restored to, the default capture state |
| LegacyFunction.FunctionInterface.Print | niceterminal/src/niceterminal/interface/function.py:122-136 | `InterfaceNotStarted` unless running, also after shutdown; otherwise the text is queued with `\n` widened |
| LegacyFunction.FunctionInterface.BeginCapture | niceterminal/src/niceterminal/interface/function.py:138-150 | the guard; then the buffer and the ready flag are cleared, the mode set and a non-empty prompt queued |
| LegacyFunction.FunctionInterface.Input | niceterminal/src/niceterminal/interface/function.py:138-159 | `InterfaceNotStarted` unless running, and then nothing changes; otherwise the buffer and ready flag are cleared, the mode set to INPUT and a non-empty prompt queued |
| LegacyFunction.FunctionInterface.Getpass | niceterminal/src/niceterminal/interface/function.py:161-184 | `InterfaceNotStarted` unless running, and then nothing changes; otherwise as `input` in GETPASS mode, remembering that a password was asked for |
| LegacyFunction.FunctionInterface.CompleteCapture | niceterminal/src/niceterminal/interface/function.py:153-159 | once the ready flag is up, returns the stored line and restores the default capture state |
| LegacyFunction.FunctionInterface.CaptureStep | niceterminal/src/niceterminal/interface/function.py:186-215 | `capture` edits the buffer and returns the echo as `LegacyCapture` says; Enter stores the line and raises the ready flag |
| LegacyFunction.FunctionInterface.Receive | niceterminal/src/niceterminal/interface/function.py:217-241 | `receive` does what `LegacyReceive` says: receive callbacks for non-empty data, then the mode's send and any completed line |
| LegacyFunction.RunsFunctionAsWritten | niceterminal/src/niceterminal/interface/function.py:58-61 | as written, starting the interface never runs the wrapped function: `launch` has set STARTED before the hook's INITIALIZED guard looks |
| LegacyFunction.RunsFunction | niceterminal/src/niceterminal/interface/function.py:58-76 | with that guard left to `launch`, the wrapped function runs exactly when a fresh interface is started |
| LegacyFunction.LegacyTypedLine | niceterminal/src/niceterminal/interface/function.py:207-215 | bytes typed one at a time in INPUT mode are echoed exactly and buffered exactly, and Enter then hands over that line |
| LegacyPersistent.PersistentInterface.constructor | src/niceterminal/interface/persistant.py:13-27 | a blank screen of the requested size |
| LegacyPersistent.PersistentInterface.DumpScreenState | src/niceterminal/interface/persistant.py:68-175 | the positioned dump, as a text string, of the given screen |
| LegacyPersistent.PersistentInterface.GetScreenDisplay | src/niceterminal/interface/persistant.py:178-181 | the dump of the wrapper's own screen |
| LegacyPersistent.PersistentInterface.GetCursorPosition | src/niceterminal/interface/persistant.py:183-186 | the cursor as (row, column) |

## Left out

- Escape-sequence interpretation is left out: pyte's `Stream.feed`, `Screen.resize` and `cursor_down`, and the UTF-8 decoding that precedes them. The screen is only the grid of cell records, the cursor, the margins and the scroll-back.
- Sending in `PersistentInterface` therefore does not update the screen, and its `set_terminal_size`/`set_size` do not resize it.
- SiobaBase.EventsScreen.Index: assumes `cursor_down` clamps the cursor into the margins.
- SiobaBase.EventsScreen.Index: does not model the `dirty` set.
- SiobaBase.EventsScreen.Index: a row is stored whole, not as a sparse dictionary, and a row removed from the buffer reads as empty.
- Encoding is left out: the dumps are text, and the final `.encode()` of the older and newer interfaces is not modelled.
- SiobaFunction.FunctionInterface.CompleteCapture: returns the line as raw bytes. `capture` returns `data.decode()`, and the UTF-8 decoding is not modelled. Nor is the `UnicodeDecodeError` on invalid bytes, which `@logger.catch` turns into None.
- LegacyFunction.FunctionInterface.CompleteCapture: returns the stored line as raw bytes. The `.decode()` of `input`/`getpass` and its error on invalid UTF-8 are not modelled.
- Dump.DumpWithScrollback: each scroll-back line is a sequence of cells written out in order. In pyte a scroll-back line is a sparse dictionary, and `line.items()` yields only the cells that were written, in the order they were first written, with no blank for a skipped column. The model takes the line as the sequence that iteration yields, and `SiobaBase.EventsScreen.Index` saves dense rows. So the dump of a line with gaps or out-of-order writes is not captured.
- Printed text is taken already formatted and encoded. The formatting done by Python's built-in `print` into a `StringIO` is not modelled.
- Concurrency is left out:
  - asyncio tasks, `create_task`, threads, the executor, janus queues and `send_to_control_loop`;
  - the send thread of the older function interface;
  - the running of the wrapped function.
  - Queues are sequences, and a blocking read is a separate complete step.
- `start_interface`, `launch_interface`, `shutdown_interface` and `set_terminal_size` are hooks for subclasses. The base versions do nothing, and a call to one is recorded as an effect.
- `@logger.catch` (log the exception and return None) is not modelled. An exception is returned as an error value instead.
- Callback order is not modelled. Callbacks live in Python sets, so an effect names the whole set and promises no order. Callbacks that are coroutines are treated like plain calls.
- SiobaFunction.FunctionInterface.Shutdown: `shutdown_interface` calls `super().shutdown()` while the state is still STARTED, which re-enters `shutdown`. The model is the corrected single guarded transition. The recursion as written is the subject of a row under "## Findings".
- LegacyFunction.FunctionInterface.Receive: the older `receive` uses `_on_receive_callbacks` and `send`, which the older base class does not define. The model binds them to the receive callbacks and to a log of sent chunks.
- The construction of the older function interface passes keyword arguments that its base does not accept. The model builds it over a default base interface.
- The older function interface's `_process_send_queue`, `_run_function` and `_async_shutdown` run in threads and are not modelled. Nor is the fact that `_async_shutdown` calls the coroutine `shutdown()` without awaiting it.
- The imports of modules that do not exist (the `PersistenceMixin` of the older function interface) are not modelled.
- The process wrapper in `src/niceterminal/interface/persistant.py` only delegates to a wrapped process (`on_read`, `launch_process`, `write`, `set_size`, `shutdown`, `running`, `__getattr__`). Only its screen, its dump and its cursor are modelled.
- `urlparse`, `parse_qs` and `importlib.metadata.entry_points` are foreign parsers and discovery. Their results are inputs: a `URIDetails` value and a sequence of entry points.
- Constructing the resolved handler in `init_interface` is left out. The model returns the handler, and which class gets constructed is not modelled.
- The `float` branch of `cast_str_to_type` is left out.
- Text.Lower: maps only the ASCII letters A-Z. Python's `str.lower()` in `register_interface` and `init_interface` also lower-cases non-ASCII letters, so schemes differing only in non-ASCII case (such as "É" and "é") clash in Python but not in the model.
- Context.InterfaceContext.GetAsWritten: `getattr(self, key)` also finds the class's methods, so `get("copy")` returns a bound method. The model looks only at data attributes, and such a key goes to `extra_params` or None.
- `Text.ParseInt` covers Python's `int()` only for ASCII digits, with an optional sign, surrounding ASCII whitespace (space, tab, line feed, carriage return, vertical tab and form feed; not the separators U+001C to U+001F) and single underscores between digits.
- Client metadata values are integers. Non-numeric metadata values are not modelled.
- `set_terminal_title` on `EventsScreen`, and the `title` it forwards from pyte, are part of escape-sequence interpretation and are not modelled.
- The `id` of each interface (a random UUID) is left out.
- The entry-point scripts, socket, subprocess and UI layers are outside the engine and are not part of this model.

## Findings

| source | as written | input that shows it | evidently intended | confidence | as-written member | corrected member |
|---|---|---|---|---|---|---|
| sioba/src/sioba/structs.py:84-92 | with the ERROR strategy and exactly one value, no branch returns, so `param` falls through to `return default` | query `{"k": ["v"]}`, `param("k", resolve=ERROR)` gives None | ERROR returns the single value and raises only on several | high (not executed) | Structs.ParamAsWrittenErrorDropsSingle | Structs.Param |
| sioba/src/sioba/context.py:117-123 | for an undeclared key, `get` returns `extra_params.get(key, default)` only when `extra_params` is non-empty, and otherwise falls off the end | empty `extra_params`, `get("colour", "blue")` gives None | the default is returned whenever the key is not found | medium (not executed) | Context.GetAsWrittenIgnoresDefault | Context.InterfaceContext.Get |
| niceterminal/src/niceterminal/interface/function.py:58-61 | `launch` (niceterminal/src/niceterminal/interface/base.py:99-102) sets STARTED and then calls `launch_interface`, which returns at once unless the state is INITIALIZED | any `start()` of a fresh function interface: neither the send thread nor the wrapped function is started | `launch_interface` runs the function whenever `launch` calls it, as the newer `start_interface` does without a guard | high (not executed) | LegacyFunction.RunsFunctionAsWritten | LegacyFunction.RunsFunction |
| sioba/src/sioba/function.py:90-95 | `shutdown_interface` awaits `super().shutdown()`. The base `shutdown` (sioba/src/sioba/base.py:165-175) still sees STARTED and calls `shutdown_interface` again, without bound until the recursion limit | any `shutdown()` of a started function interface: the shutdown callbacks run once per level of recursion | `shutdown_interface` only closes the send queue, and the base `shutdown` sets SHUTDOWN and runs the callbacks once | medium (not executed) | SiobaFunction.ShutdownAsWrittenRepeats | SiobaFunction.FunctionInterface.Shutdown |
