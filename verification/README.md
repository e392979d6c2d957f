# KALUA: a verified model of its data transformations

KALUA runs Lua scripts that describe forms, and its form builder turns JSON form documents into such scripts
and back. This project models the parts of KALUA that transform data and have promises to keep: the form
builder's export, import and merge, the JSON encoder over Lua tables with the shared store that depends on
it, INI files, the tree built from database rows, the SQL writers with the server-side pager, XML documents,
date formats, MQTT filters, tab lists and the importer's line bookkeeping. Where the source works by loops
and updates, the model is a method with the same loop, proved equal to a specification function; what the
source promises is then proved about that function, for every input.

## The files

| file | part of KALUA |
|---|---|
| `Text.dfy` | library string functions: sorting, joining, splitting, trimming, decimal numbers |
| `LuaLexer.dfy`, `LuaParser.dfy` | the part of gopher-lua's scanner and parser that reads what the exporter writes |
| `LuaText.dfy`, `LuaCall.dfy` | printed literals and call statements, and the proof that they are read back |
| `LuaKeys.dfy`, `LuaStatement.dfy` | where one piece of text ends; option keys printed bare; scripts of call statements with handlers |
| `LuaLiteral.dfy` | `jsonToLuaLiteral` against `exprToJSON` and `tableToJSON` |
| `Document.dfy`, `LuaForms.dfy`, `LuaControls.dfy` | form documents; a form's scaffold and a control through export and import |
| `Overlay.dfy`, `Merge.dfy` | ordered overlays by key; `MergeDocument` |
| `LuaScript.dfy` | a form's scaffold, controls, handlers, stubs and show through export and import as one script |
| `Handlers.dfy` | event handlers through import and export |
| `Spans.dfy`, `Importer.dfy` | line spans of owned calls; the importer's walk over a script |
| `LuaHeap.dfy`, `JsonWriter.dfy` | Lua tables on a heap; `writeJSON` over shared and cyclic tables |
| `JsonReader.dfy`, `SharedStore.dfy` | the JSON decoder, `convertJSONGo`, and `k.shared` |
| `JsonPath.dfy` | `navigateJSON` |
| `RowTree.dfy` | `BuildTree` |
| `Ini.dfy` | the INI parsers, printer, `ini_read` and `ini_write` |
| `SqlText.dfy`, `SqlMeaning.dfy`, `SqlPaging.dfy`, `SqlQuery.dfy` | SQL fragments, a reader that gives them their meaning, pages, whole queries |
| `StatementBuilders.dfy`, `Pager.dfy` | UPDATE, DELETE and INSERT writers; `FetchTablePage` and `FetchLooperRows` |
| `XmlEvents.dfy`, `XmlParser.dfy` | `parseXML` and `findNode` |
| `Calendar.dfy` | `julianDay`, `time.Date` |
| `DateFormat.dfy`, `DateLayouts.dfy` | `formatDate`, `parseDateStr` and `parseWithFormat`; the formats of the fixed layouts |
| `Mqtt.dfy`, `Tabs.dfy` | topic filters; inserting and removing tabs |

## What the proofs found

- A printed value reads back as itself exactly when no array in it is empty, no key is empty and no key is a
  Lua reserved word: `luaKey` prints reserved words bare, and `[]` prints as `{}`.
- `%q` writes a control character as `\x..`, which Lua 5.1 does not read; names, titles and colours printed
  with it survive only without such characters.
- An option key that is no identifier is printed bare: the statement, and with it the whole script, is not read
  back.
- The export writes `k.form.show` without its options, so a form comes back with the default ones.
- With SQL Server the pagers fail unless the columns are given, since the probe for them uses LIMIT, and unless
  there is something to order by, since OFFSET is part of an ORDER BY there; they fail too when the browser sorts
  by a column the base ordering already names, since an ORDER BY may name it only once.
- `mergeForm` keeps a form's notes, as the comment on `MergeDocument` promises, but does not copy `Modal`, `GapX`
  and `GapY`: a form keeps its show options exactly when the other document has no form of its name or they are
  the default ones. The notes of the documents themselves, of which the comment does not speak, are not carried
  over.
- Merging a document a second time leaves every form's show options alone exactly when the forms the first merge
  added had default ones; it repeats the notes.
- Two handlers of one form can share the key `control.event`; importing and exporting them then loses one. With
  valid control names no two do. A `k.form.on` inside another statement has its event listed, so that nothing is
  emitted for it, not even a stub.
- The comment on `checkCall` says a call wrapped in another expression is not owned. A claim in an argument of
  a bare call is: in `f(k.form.new("x"))` the inner call is owned from the statement's line on.
- A Lua value with both array entries and string keys does not come back from `k.shared`; a plain one always
  does.
- The comment on `BuildTree` says no row is lost. The rows on or below a parent cycle are, and only those. A
  repeated id can make the recursion endless.
- INI text whose first printed character is a byte order mark loses a key when it is read again; all other
  parsed text survives printing.
- A `where` table of which no key is an identifier selects every row in `db_update` and `db_delete`.
- `db_update` with no identifier among the columns to set writes an UPDATE without assignments, and `db_insert` an
  INSERT without columns.
- A date format that names a year or month without month and day does not give them back, since
  `time.Date` normalizes the zeros; nor does a year printed unpadded, nor an unknown token.
- `parseWithFormat` tries the fixed layouts before the format: a date printed with `%Y-%d-%m` comes back exactly
  when its day is its month or is too large for one. 5 June 2024 is read back as 6 May.
- Inserting a removed tab again gives the tabs back unless it was the last and its neighbour is missing: then the
  list has become too short for the index.

## Model

| member | source | states |
|---|---|---|
| `LuaLiteral.LiteralReadsBack` | internal/builder/lua_export.go:312-381 | any printed JSON value, scanned, parsed and converted, is its normal form (empty arrays become empty objects, empty keys vanish), or unreadable exactly when a key is a reserved word |
| `LuaLiteral.LiteralRoundTrip` | internal/builder/lua_import.go:704-781 | the trip through Lua text is the identity exactly on values without empty arrays, empty keys and reserved words as keys |
| `LuaKeys.LexPieces` | internal/builder/lua_export.go:67-103 | after any text that can be read a newline, or where there is no comment any blank, ends what was read; and a text without quotes is read before it exactly when it is read alone |
| `LuaStatement.StatementReads` | internal/builder/lua_export.go:253-302 | a printed call is read as that call before whatever follows it, or nothing is read when an argument is unreadable |
| `LuaStatement.ScriptThen` | internal/builder/lua_export.go:67-103 | scripts one after another on new lines are read as their statements one after another, whatever functions they hold |
| `LuaStatement.ReadCallText` | internal/builder/lua_import.go:411-435 | a printed call statement parses to its path and arguments, whatever they are, or fails exactly when an argument is unreadable |
| `LuaText.RequotedIsSame` | internal/builder/lua_export.go:378-381 | a quoted string scans back unchanged exactly when its style of quoting can write it |
| `LuaForms.ExportBorder` | internal/builder/lua_export.go:221-251 | the border table is the text of its literal entries |
| `LuaForms.ExportCell` | internal/builder/lua_export.go:221-251 | a cell prints its id first and then each set field once, as literal entries |
| `LuaForms.ExportCells` | internal/builder/lua_export.go:221-251 | the cells print in order, absent ones skipped |
| `LuaForms.FormOptions` | internal/builder/lua_export.go:197-219 | title, layout, alignment, gap and cells, with the defaults for layout and alignment |
| `LuaForms.ExportFormNew` | internal/builder/lua_export.go:197-219 | the statement is the call text of `k.form.new` with the form's name and scaffold |
| `LuaForms.ImportCell` | internal/builder/lua_import.go:905-934 | reading a cell's fields in order is the fold of the field rules |
| `LuaForms.ImportBorder` | internal/builder/lua_import.go:905-934 | a border's fields are read in order, later ones winning |
| `LuaForms.ImportCells` | internal/builder/lua_import.go:869-903 | cells come back in order, keyed and positional ones alike, those without an id dropped |
| `LuaForms.ImportScaffold` | internal/builder/lua_import.go:832-867 | the scaffold read is the fold over the option fields |
| `LuaForms.FormReadsBack` | internal/builder/lua_import.go:447-478 | the exported statement imports as the form's normal scaffold, or not at all without a name |
| `LuaForms.FormRoundTrip` | internal/builder/lua_export.go:197-251 | a form's scaffold survives export and import exactly when layout and alignment are set, cells have ids, widths are not negative and no string needs a hexadecimal escape |
| `LuaControls.ExportItems` | internal/builder/lua_export.go:351-369 | ordered items print as the entries of a map literal in order |
| `LuaControls.ImportItems` | internal/builder/lua_import.go:815-830 | items come back as an ordered list of keys and displays |
| `LuaControls.ExportOptions` | internal/builder/lua_export.go:253-279 | the option loop: runtime database handles skipped and reported, nil skipped, items ordered |
| `LuaControls.OptionValue` | internal/builder/lua_export.go:271-278 | one option's value, items as a map literal in order |
| `LuaControls.ExportInline` | internal/builder/lua_export.go:280-282 | inline options after the others, in key order |
| `LuaControls.WriteLines` | internal/builder/lua_export.go:290-296 | options one to a line, each with its comma |
| `LuaControls.WriteTable` | internal/builder/lua_export.go:290-301 | one line or many, by the number of options |
| `LuaControls.ExportControl` | internal/builder/lua_export.go:253-302 | the control prints as its hint comments and one call with its options in key order |
| `LuaControls.ImportOptions` | internal/builder/lua_import.go:783-813 | the options read are the fold over the table's fields |
| `LuaControls.BadControl` | internal/builder/lua_export.go:253-302 | a control with an option key that is no identifier prints a statement nothing is read past, whatever follows |
| `LuaControls.ControlReads` | internal/builder/lua_export.go:253-302 | an exported control is read as its statement before whatever follows, or nothing is read, exactly when a key is no identifier or an option is unreadable |
| `LuaControls.ControlReadsBack` | internal/builder/lua_import.go:480-521 | an exported control imports as its canonical options, or not at all when a key is no identifier or an option is unreadable |
| `LuaControls.ControlRoundTrip` | internal/builder/lua_export.go:253-302 | a control survives export and import exactly when every option is printed and solid, every key is an identifier and not reserved, names are set and quotable, and a label is stored as text |
| `LuaScript.WriteControls` | internal/builder/lua_export.go:48-50 | the controls' statements, one after another |
| `LuaScript.WriteBodies` | internal/builder/lua_export.go:67-103 | the handlers kept, each as written on lines of its own |
| `LuaScript.WriteStub` | internal/builder/lua_export.go:184-195 | a stub is a `k.form.on` that prints the event's path; the form's own names no control |
| `LuaScript.WriteStubs` | internal/builder/lua_export.go:156-170 | one stub for every default event without a handler |
| `LuaScript.ExportBlock` | internal/builder/lua_export.go:44-64 | the block is the scaffold's statement, the controls', the handlers', the stubs' and the show's, one after another |
| `LuaScript.StubReads` | internal/builder/lua_export.go:184-195 | a stub is read as its call, its function passed over up to the matching end, before whatever follows |
| `LuaScript.BlockReads` | internal/builder/lua_export.go:44-64 | a form's block is read as exactly its statements in order, or nothing is read when a key is no identifier or an option unreadable |
| `LuaScript.ImportAll` | internal/builder/lua_import.go:250-265 | the calls of a script in order, each to the form it names: scaffold, controls, handlers, and the first show with its options |
| `LuaScript.AddedAreImported` | internal/builder/lua_import.go:582-615 | the events the calls list are those module `Handlers` lists |
| `LuaScript.BlockReadsBack` | internal/builder/lua_export.go:44-64 | a whole form's block imports as its normal scaffold, its controls in order, the events of its handlers and stubs and its show, or not at all when a key is no identifier or an option is unreadable |
| `LuaScript.BlockRoundTrip` | internal/builder/lua_export.go:44-64 | a whole form with its handlers comes back as itself exactly when its scaffold and every one of its controls does and its show options are the default ones |
| `Overlay.OverKeys` | internal/builder/merge.go:132-155 | an overlay keeps the base's keys in order and appends the new ones in order |
| `Overlay.OverLookup` | internal/builder/merge.go:132-155 | looking a key up in an overlay gives the merge of what the two sides hold |
| `Overlay.OverAssociates` | internal/builder/merge.go:132-155 | overlaying three keyed lists in either grouping gives the same list |
| `Overlay.OverAbsorbs` | internal/builder/merge.go:132-155 | overlaying the same list again changes nothing, when merging an element twice does not |
| `Merge.CopyInto` | internal/builder/merge.go:212-244 | copying one map into another, in any iteration order, is the map union that prefers the second |
| `Merge.MergeControl` | internal/builder/merge.go:157-180 | the merged control takes type and set values from the generated one and options key by key |
| `Merge.IndexControls` | internal/builder/merge.go:132-140 | the base controls and, for each name, the position it stands at |
| `Merge.MergeControls` | internal/builder/merge.go:132-155 | the loop over an index of positions is the ordered overlay |
| `Merge.CollectCells` | internal/builder/merge.go:182-205 | order and map of cells, base and then generated |
| `Merge.MergeCells` | internal/builder/merge.go:182-210 | cells are collected by id, base order first |
| `Merge.MergeForm` | internal/builder/merge.go:79-115 | the merged form, field by field |
| `Merge.MergeMaps` | internal/builder/merge.go:212-244 | the merged map is the union that prefers the generated side |
| `Merge.CollectForms` | internal/builder/merge.go:39-48 | the base loop: names in order and the last form of each name |
| `Merge.LayOverForm` | internal/builder/merge.go:49-61 | one generated form merges into the form of its name or joins the order |
| `Merge.LayOver` | internal/builder/merge.go:49-61 | the generated loop over all of them |
| `Merge.ListForms` | internal/builder/merge.go:62-64 | the forms listed by the order of their names |
| `Merge.NoteAdded` | internal/builder/merge.go:65-77 | the notice of added forms, if any |
| `Merge.MergeDocument` | internal/builder/merge.go:31-77 | the order list and name map give the overlay of the forms, the active form and the notice of what was added |
| `Merge.MergeKeepsOrder` | internal/builder/merge.go:15-30 | every base form stays in its order, new names follow in generated order |
| `Merge.ControlsKeepOrder` | internal/builder/merge.go:132-155 | the same for the controls of a form |
| `Merge.CellsKeepOrder` | internal/builder/merge.go:182-210 | the same for its cells |
| `Merge.MergeAssociates` | internal/builder/merge.go:31-244 | merging three valid documents in either grouping gives the same document, its own notices aside |
| `Merge.MergeTwice` | internal/builder/merge.go:31-244 | merging a generated document again keeps the forms in order, the active form, and all of every form but notes and show options; the show options too exactly when the forms it added had default ones |
| `Merge.MergeAgain` | internal/builder/merge.go:31-244 | a second merge changes no form the generated document does not have, and of each it has only adds a notice and its notes again and resets the show options |
| `Merge.ShowOptionsKeptIff` | internal/builder/merge.go:79-115 | a form of either document keeps its show options exactly when the other has no form of its name or they are default |
| `Merge.DocumentNotesSurviveIff` | internal/builder/merge.go:65-77 | a document note is in the merged document exactly when it is the notice of a form added |
| `Merge.GeneratedWins` | internal/builder/merge.go:22-27 | in each control, option by option and for inline text and type, the generated value is taken, and the base's where there is none |
| `Merge.GeneratedHandlersWin` | internal/builder/merge.go:28-29 | the same for handler bodies by key and event lists by control |
| `Merge.GeneratedScaffoldWins` | internal/builder/merge.go:17-21 | the same for cells by id, and for title, layout, alignment and gap |
| `Handlers.ImportHandlers` | internal/builder/lua_import.go:582-656 | every event is listed per control in order, and the last statement of a key that is a statement of its own is its body |
| `Handlers.FinishBodies` | internal/builder/lua_import.go:640-655 | of the statements recorded, the last of each key is kept |
| `Handlers.ExportHandlers` | internal/builder/lua_export.go:67-174 | bodies come form first, then control by control, then renamed controls in byte order, and stubs only for events without a handler |
| `Handlers.ExportEvents` | internal/builder/lua_export.go:67-87 | the kept bodies of one control's events |
| `Handlers.ExportStubs` | internal/builder/lua_export.go:156-170 | stubs for the default events without a handler |
| `Handlers.ExportBodies` | internal/builder/lua_export.go:67-103 | the form's kept bodies, each control's, and those of renamed controls, sorted |
| `Handlers.ExportSome` | internal/builder/lua_export.go:67-103 | the kept bodies of some places in turn |
| `Handlers.ExportDefaults` | internal/builder/lua_export.go:156-170 | form first, then control by control |
| `Handlers.HandlersSurviveIff` | internal/builder/lua_export.go:54-183 | after import and export every named event still has the statement registered last, exactly when each handler belongs to the form, one of its controls or a renamed one, no two events share a key, and what stands last is a statement of its own |
| `Handlers.ValidHandlersSurviveIff` | internal/builder/model.go:190-194 | for valid control names no two events share a key, so that placement and direct statements are the whole condition |
| `Handlers.UnnamedNotEmitted` | internal/builder/lua_import.go:588-609 | a call without a control or an event, which the importer skips, is not emitted |
| `Handlers.NestedEmitsNothing` | internal/builder/lua_import.go:582-615 | an event registered only inside other statements is listed and nothing is emitted for it, neither body nor stub |
| `Handlers.SharedKeyLoses` | internal/builder/lua_import.go:582-615 | of two events with one key, one is not emitted |
| `Handlers.SharedKeyExample` | internal/builder/lua_import.go:582-615 | two handlers of two controls of which one is lost, whatever controls are exported |
| `Spans.CollectMax` | internal/builder/lua_import.go:275-394 | the recursive walk computes the deepest line |
| `Spans.DeepestIsDeepest` | internal/builder/lua_import.go:269-394 | that line is no less than any line of the statement's parts, and is one of them unless it is the starting value |
| `Spans.BoundAfter` | internal/builder/lua_import.go:622-631 | the least boundary beyond a line, or the line after the last |
| `Spans.SpanOf` | internal/builder/lua_import.go:633-650 | the span of one call, cut to the source |
| `Spans.SpansOf` | internal/builder/lua_import.go:632-651 | the spans of a form's owned calls, in order |
| `Spans.SortInts` | internal/builder/lua_import.go:622-624 | the boundaries in ascending order, none lost or added |
| `Importer.Importer.Walk` | internal/builder/lua_import.go:117-248 | the walk over a statement or expression is the state transformer that records boundaries, the current line and owned calls |
| `Importer.Importer.WalkAll` | internal/builder/lua_import.go:33-35 | the same for several in order |
| `Importer.Importer.Enter` | internal/builder/lua_import.go:117-124 | a statement becomes the current line and two boundaries; a call is checked |
| `Importer.Importer.CheckCall` | internal/builder/lua_import.go:250-265 | each kind of call does what its import function does |
| `Importer.Importer.ImportFormNew` | internal/builder/lua_import.go:447-478 | the first direct call of a name starts its form |
| `Importer.Importer.ImportControl` | internal/builder/lua_import.go:480-521 | a direct call of a known form adds a control |
| `Importer.Importer.ImportFormShow` | internal/builder/lua_import.go:523-580 | only the first show of a form is owned |
| `Importer.Importer.ImportFormOn` | internal/builder/lua_import.go:582-615 | the event is listed, and its call owned when it is direct |
| `Importer.Importer.RecordSpan` | internal/builder/lua_import.go:398-406 | a direct call is recorded with its statement's line and its deepest line |
| `Importer.Finish` | internal/builder/lua_import.go:622-656 | every form's owned calls get the spans the sorted boundaries give |
| `Importer.ImportSpans` | internal/builder/lua_import.go:24-41 | the walk over the whole program, then finish: if its lines lie in the source, every span lies there, holds its call and no later statement, and spans of calls that do not overlap are disjoint |
| `Importer.BoundsAre` | internal/builder/lua_import.go:109-120 | the boundaries recorded are exactly the lines on which some statement begins or ends |
| `Importer.WalkedIsSound` | internal/builder/lua_import.go:117-406 | every call recorded over any program within its source starts at a boundary and ends at its deepest line |
| `Importer.SpanHoldsCall` | internal/builder/lua_import.go:617-656 | over any program whose lines lie in its source, the span of an owned call lies in the source, holds every line the call is on, and no line on which a later statement begins or ends |
| `Importer.SpansApart` | internal/builder/lua_import.go:617-656 | owned calls of one form or two, the one ending before the other's statement, have spans that do not overlap |
| `Importer.OwnedAreBare` | internal/builder/lua_import.go:246-249 | where no claim is inside the call of a bare call statement, every owned call is the whole of such a statement |
| `Importer.WrappedIsOwned` | internal/builder/lua_import.go:246-249 | a claim in an argument of a bare call is owned, with the whole statement's line |
| `Spans.Verbatim` | internal/builder/lua_import.go:658-674 | the text of a span is its lines joined, the range cut to the source |
| `Spans.LinesBack` | internal/builder/lua_import.go:658-674 | splitting that text gives exactly those lines |
| `LuaHeap.Len` | internal/bindings/json.go:268-291 | a table's length is its last entry that is not nil |
| `JsonWriter.Writer.Write` | internal/bindings/json.go:195-265 | for any heap, depth and open set: success exactly when writable, the tree's text appended, and the open set left as found on success and failure |
| `JsonWriter.Writer.WriteTable` | internal/bindings/json.go:220-260 | array branch or object branch, as the table is |
| `JsonWriter.Writer.WriteArray` | internal/bindings/json.go:230-242 | the array branch writes its entries in order between brackets |
| `JsonWriter.Writer.WriteObject` | internal/bindings/json.go:243-260 | the object branch writes the members between braces |
| `JsonWriter.Writer.WriteMembers` | internal/bindings/json.go:243-259 | the object loop writes each sorted name with the value looked up as a string |
| `JsonWriter.Writer.WriteMember` | internal/bindings/json.go:250-257 | a name, a colon and the value |
| `JsonWriter.FailsExactlyOnBadPaths` | internal/bindings/json.go:195-265 | encoding fails exactly when some descent revisits a table it is inside, goes deeper than 200 or meets a value no JSON stands for |
| `JsonWriter.WritableUnfolds` | internal/bindings/json.go:195-265 | what is written is the finite unfolding of the value |
| `JsonWriter.UnfoldsOnce` | internal/bindings/json.go:195-265 | a value has at most one unfolding |
| `JsonWriter.WritableIffShallow` | internal/bindings/json.go:195-265 | a value with a finite unfolding can be written exactly when it is no higher than 200; sharing never fails |
| `JsonWriter.Stringify` | internal/bindings/json.go:170-178 | a text exactly when there is no bad path, and then the encoding of the unfolding |
| `JsonReader.CharsBack` | internal/bindings/json.go:210-220 | an escaped string is read back whole, whatever follows its closing quote |
| `JsonReader.ScanNumberStops` | internal/bindings/json.go:159-168 | a number is read to its end and not beyond |
| `JsonReader.ValueBack` | internal/bindings/json.go:159-168 | the decoder reads back every tree the encoder writes and leaves the rest of the text |
| `SharedStore.ConvertJsonGo` | internal/bindings/json.go:320-356 | the converted value matches the decoded one, in new tables, the heap otherwise unchanged |
| `SharedStore.PlainText` | internal/bindings/serve.go:172-190 | a plain value can be stored exactly when it nests within the cap, and its text is read back whole |
| `SharedStore.PlainBack` | internal/bindings/json.go:320-356 | what a plain value's text decodes to is equal to the value, from one heap to another |
| `SharedStore.RoundTripIffPlain` | internal/bindings/serve.go:172-206 | what a stored value decodes to equals it exactly when no table in it has both array entries and string keys |
| `SharedStore.Shared.Set` | internal/bindings/serve.go:178-190 | storing keeps the store's invariant and every other key; a value that cannot be encoded changes nothing |
| `SharedStore.Shared.Get` | internal/bindings/serve.go:192-206 | reading a key that holds a plain value gives an equal value in new tables |
| `SharedStore.Shared.Del` | internal/bindings/serve.go:208-213 | deleting forgets that key alone |
| `JsonPath.NavigateJson` | internal/bindings/json.go:358-415 | the cursor loop computes where the path leads |
| `JsonPath.IndexSegment` | internal/bindings/json.go:369-390 | past an index in brackets, or failure |
| `JsonPath.NameSegment` | internal/bindings/json.go:391-412 | past a name, or failure |
| `JsonPath.PathFollows` | internal/bindings/json.go:358-415 | the path written for a list of names and indices leads exactly where those steps lead |
| `RowTree.KidsOf` | internal/bindings/tree.go:153-159 | a row's children are exactly the rows naming its key, in row order |
| `RowTree.Roots` | internal/bindings/tree.go:161-174 | the roots are exactly the rows without a parent or with one that was not loaded, in row order |
| `RowTree.IndexChildren` | internal/bindings/tree.go:153-159 | the map built by the loop holds the child list of every key |
| `RowTree.FindRoots` | internal/bindings/tree.go:147-174 | the two loops give the roots in row order |
| `RowTree.IndexIds` | internal/bindings/tree.go:147-151 | the map's keys are exactly the ids of the loaded rows |
| `RowTree.Build` | internal/bindings/tree.go:176-197 | the closure builds the node of the row with its normalized keys and its children below it, which take the place of a column named `_children` |
| `RowTree.BuildTree` | internal/bindings/tree.go:146-204 | the forest of the roots; with distinct ids each row appears once, or not at all when on or below a parent cycle |
| `RowTree.ReturnsIffNoRevisit` | internal/bindings/tree.go:176-197 | the recursion from a row returns exactly when no descent comes back to a row it has passed |
| `RowTree.DistinctReturns` | internal/bindings/tree.go:146-204 | with distinct ids it returns from every root |
| `RowTree.EachRowOnce` | internal/bindings/tree.go:139-145 | with distinct ids every row whose parent chain ends appears exactly once and no other row appears |
| `RowTree.LostIffCycle` | internal/bindings/tree.go:139-145 | the rows that are lost are exactly those on or below a parent cycle |
| `RowTree.RepeatedIdNeverReturns` | internal/bindings/tree.go:147-197 | three rows with a repeated id from which the recursion never returns |
| `RowTree.DistinctBuilds` | internal/bindings/tree.go:146-204 | with distinct ids there is a forest for `BuildTree` to return |
| `Ini.ParseIni` | internal/bindings/formats.go:494-557 | the line loop of both parsers; they differ only in what a repeated header does |
| `Ini.ParseLines` | internal/bindings/formats.go:534-556 | the loop over the lines runs the parser's steps in order |
| `Ini.ParseLine` | internal/bindings/formats.go:535-555 | one turn of the loop is one step of the parser's state |
| `Ini.ParseTrimmed` | internal/bindings/formats.go:537-555 | the same for a line already trimmed |
| `Ini.IniString` | internal/bindings/formats.go:579-620 | the printed text is the root's pairs and then each section, names and keys sorted, entries that are no tables skipped |
| `Ini.NamesKept` | internal/bindings/formats.go:604-614 | skipping entries that are no tables leaves the sections in byte order |
| `Ini.WritePairs` | internal/bindings/formats.go:584-595 | each key with its value on a line of its own, newlines in values escaped |
| `Ini.WriteSections` | internal/bindings/formats.go:604-619 | each section after its header, the root left out |
| `Ini.ParsesClean` | internal/bindings/formats.go:494-557 | everything either parser produces is clean: trimmed, of one line, not shaped like a comment or header |
| `Ini.RoundTripIff` | internal/bindings/formats.go:528-620 | printing and parsing again is the identity exactly on clean sections whose text does not begin with a byte order mark |
| `Ini.ReparseIff` | internal/bindings/formats.go:494-620 | for every text, what it parses to can be printed and parsed again, the mark aside |
| `Ini.IniRead` | internal/bindings/formats.go:416-448 | the value at a section and key of the file, or the empty string |
| `Ini.IniWrite` | internal/bindings/formats.go:450-491 | the new file is the print of the old sections with one value set |
| `Ini.WriteReadsIff` | internal/bindings/formats.go:450-491 | after a write the file holds what it held with that value set, exactly when section, key and value are clean and the text does not begin with a byte order mark |
| `Ini.WriteThenRead` | internal/bindings/formats.go:416-491 | `ini_read` then gives the value written, and every other key as before; if the text begins with a byte order mark, the first key of the root is lost |
| `SqlText.WhereReads` | internal/bindings/tabledb.go:143-170 | a generated WHERE is read back as its conditions, placeholders numbered on from the start, in each driver's style, whatever follows it |
| `SqlText.PlaceholderReads` | internal/bindings/db.go:903-913 | a placeholder stands for its own number, bare ones for the next |
| `SqlMeaning.SelectsIff` | internal/bindings/tabledb.go:143-170 | each placeholder is bound to its own value, wherever the values stand among the parameters |
| `SqlMeaning.PlacesRun` | internal/bindings/tabledb.go:322-376 | the placeholders run through consecutive numbers, one for each value |
| `SqlMeaning.UpdateMeans` | internal/bindings/db.go:240-257 | an UPDATE's text and parameters set every column to its own value in the rows its own conditions select |
| `SqlMeaning.DeleteMeans` | internal/bindings/db.go:262-279 | a DELETE removes exactly the rows its conditions select |
| `SqlMeaning.InsertMeans` | internal/bindings/grid.go:561-594 | an INSERT adds one row with each column's own value |
| `StatementBuilders.BuildWhereClause` | internal/bindings/db.go:674-695 | one equality for every identifier key, numbered from the given start |
| `StatementBuilders.DbUpdate` | internal/bindings/db.go:225-258 | the SET list numbered from 1 and the WHERE numbered on from it |
| `StatementBuilders.BuildSets` | internal/bindings/db.go:240-252 | one assignment for every identifier key, numbered from 1 |
| `StatementBuilders.DbDelete` | internal/bindings/db.go:261-280 | the WHERE numbered from 1 |
| `StatementBuilders.DbUpdateMeans` | internal/bindings/db.go:225-258 | exactly the rows matching every identifier column of the where table change, each column to its own value, if and only if there is a column to set; otherwise the text is no statement |
| `StatementBuilders.DbDeleteMeans` | internal/bindings/db.go:261-280 | exactly those rows go |
| `StatementBuilders.DbInsert` | internal/bindings/db.go:190-223 | the identifier columns with consecutive placeholders |
| `StatementBuilders.DbInsertMeans` | internal/bindings/db.go:190-223 | one row is added with each identifier column's own value; without such a column the text is no statement, but in MySQL |
| `SqlMeaning.EmptyUpdateFails` | internal/bindings/db.go:240-257 | an UPDATE without assignments is not read as a statement |
| `StatementBuilders.NoIdentifierSelectsAll` | internal/bindings/db.go:674-695 | a where table without identifier keys selects every row |
| `StatementBuilders.AssignedEach` | internal/bindings/db.go:240-257 | each distinct column assigned holds its own value |
| `StatementBuilders.OthersKept` | internal/bindings/db.go:240-257 | columns not assigned keep theirs |
| `StatementBuilders.GridInsert` | internal/bindings/grid.go:557-597 | the accepted columns in byte order, a blank key left out, an error when none is left |
| `StatementBuilders.GridInsertColumns` | internal/bindings/grid.go:561-588 | the loop over the columns |
| `StatementBuilders.GridUpdate` | internal/bindings/grid.go:599-629 | the columns numbered from 1 and the key numbered after them and bound last |
| `StatementBuilders.GridUpdateColumns` | internal/bindings/grid.go:599-623 | the statement for given columns |
| `StatementBuilders.GridSets` | internal/bindings/grid.go:605-616 | the loop over the columns, the key's own left out |
| `StatementBuilders.GridDeleteMany` | internal/bindings/grid.go:631-663 | one equality or an IN list over the keys that are not NULL, an error when there is none |
| `StatementBuilders.GridUpdateMeans` | internal/bindings/grid.go:599-629 | exactly the rows with that key change, whatever words name table and key |
| `StatementBuilders.GridDeleteMeans` | internal/bindings/grid.go:631-663 | exactly the rows whose key is one of those values go, whatever words name table and key |
| `SqlPaging.OrderReads` | internal/bindings/tabledb.go:172-208 | an ORDER BY is read back as its columns and directions, in order, whatever follows it |
| `SqlPaging.LimitReads` | internal/bindings/tabledb.go:387-395 | the paging clause is read back as its size and offset, in each driver's form |
| `SqlPaging.PagesPartition` | internal/bindings/tabledb.go:226-246 | pages 1 to the last, one after another, are the whole result, and the last is not idle |
| `SqlPaging.LaterPagesEmpty` | internal/bindings/tabledb.go:226-246 | pages after the last are empty |
| `SqlPaging.OnOnePage` | internal/bindings/tabledb.go:226-246 | each row lies on exactly one page |
| `Pager.BuildFilterClause` | internal/bindings/tabledb.go:322-376 | the clause of an accepted filter with its values, the counter advanced by their number, or a dropped filter |
| `Pager.ComparisonClause` | internal/bindings/tabledb.go:330-347 | the comparison each operator name stands for, with its operand |
| `Pager.InClause` | internal/bindings/tabledb.go:348-367 | an IN list of the non-empty pieces, or a condition that is never true |
| `Pager.CleanItems` | internal/bindings/tabledb.go:349-355 | the pieces trimmed, empty ones dropped |
| `Pager.BindItems` | internal/bindings/tabledb.go:359-365 | consecutive placeholders, one for each item |
| `Pager.BuildWhere` | internal/bindings/tabledb.go:143-170 | base filter and browser filters as one WHERE with its parameters |
| `Pager.BuildFilters` | internal/bindings/tabledb.go:158-165 | the filters go on from the placeholders already used |
| `Pager.ClausesMean` | internal/bindings/tabledb.go:143-170 | in whatever order the base filter is visited, the WHERE selects exactly the rows satisfying every whitelisted base equality and every accepted filter |
| `Pager.BuildOrder` | internal/bindings/tabledb.go:172-208 | base ordering first, then the browser's whitelisted sorts; only identifiers and two directions reach the text |
| `Pager.BaseOrders` | internal/bindings/tabledb.go:172-193 | the base ordering part by part, invalid parts dropped |
| `Pager.SortOrders` | internal/bindings/tabledb.go:194-203 | the browser's whitelisted sorts in order |
| `SqlQuery.PageReads` | internal/bindings/tabledb.go:245-248 | a page's whole text is read back as its conditions, keys and bounds; it is no query exactly for SQL Server when the keys are none or name a column twice |
| `SqlQuery.CountReads` | internal/bindings/tabledb.go:217-219 | the derived count's text is read back as the count of its conditions, by every driver |
| `SqlQuery.ProbeReads` | internal/bindings/tabledb.go:264-275 | a probe is a query exactly where there is a LIMIT, in every driver but SQL Server |
| `Pager.OrderedIff` | internal/bindings/tabledb.go:172-208 | there is an ORDER BY exactly when a part of the base ordering begins with an identifier or a sort is whitelisted |
| `Pager.RequestAnswers` | internal/bindings/tabledb.go:245-262 | the answer to a request's text is the page asked for; only SQL Server has none, when the request orders by nothing or by a column twice |
| `Pager.CountAnswers` | internal/bindings/tabledb.go:217-219 | the answer to the derived count is the number of rows wanted |
| `Pager.PageBounds` | internal/bindings/tabledb.go:226-243 | size, page number and page count, with their fallbacks |
| `Pager.CountRows` | internal/bindings/tabledb.go:210-224 | the author's count, or for the text of the derived count the number of rows wanted |
| `Pager.FactoryColumns` | internal/bindings/tabledb.go:264-285 | the two probes discover the columns, or fail: always in SQL Server, elsewhere when there are none |
| `Pager.FetchTablePage` | internal/bindings/tabledb.go:128-262 | the text sent, its parameters, the page of rows and the page count of a request, or an error; an error exactly when no column is given or discovered, the author's count fails, or SQL Server lacks given columns or a fit ORDER BY |
| `Pager.FetchLooperRows` | internal/bindings/looperdb.go:179-312 | the same with fifty rows for a missing size |
| `Pager.ServerFails` | internal/bindings/tabledb.go:204-208 | with SQL Server a fetch fails that gives no columns, orders by nothing, or sorts again by the column it is ordered by |
| `Pager.SameFetchIff` | internal/bindings/looperdb.go:179-312 | the two pagers, asked the same, return the same text, parameters, rows and page count or both an error exactly when they fail or a positive size is given somewhere |
| `Pager.FetchBoth` | internal/bindings/looperdb.go:179-312 | run side by side they give equal results exactly then |
| `Pager.FetchAllPages` | internal/bindings/tabledb.go:128-262 | asking for every page up to the last gives the whole filtered, ordered result, or as much of it as the author's count covers; an error exactly when a fetch fails |
| `XmlEvents.Run` | internal/bindings/xml.go:172-222 | after any events, well nested or not, and so after every prefix of them: children and parents name each other, siblings are in order, and the stack is the chain of ancestors of the current node |
| `XmlEvents.StepKeeps` | internal/bindings/xml.go:184-217 | every single event keeps that |
| `XmlEvents.ItemsAdd` | internal/bindings/xml.go:184-217 | the events of some content change only the node they stand in, adding its text and children |
| `XmlEvents.RebuildsElement` | internal/bindings/xml.go:172-222 | an element's own events rebuild exactly that element, and leave the stack empty |
| `XmlParser.ParseXml` | internal/bindings/xml.go:172-222 | the linked nodes the loop builds are, node by node and link by link, the numbered nodes |
| `XmlParser.OnEvent` | internal/bindings/xml.go:184-217 | one event on the linked nodes is one step on the numbered ones |
| `XmlParser.SetAttrs` | internal/bindings/xml.go:191-193 | attributes by local name, the last of a repeated one staying |
| `XmlParser.XmlNode.constructor` | internal/bindings/xml.go:186-190 | a new node has no text, children or parent |
| `XmlParser.StartElement` | internal/bindings/xml.go:185-203 | a start tag makes a new node, the last child of the current one |
| `XmlParser.AddText` | internal/bindings/xml.go:209-219 | trimmed text is added to the current node's content |
| `XmlParser.FindNode` | internal/bindings/xml.go:224-248 | the walk finds the first child of each name in turn |
| `XmlParser.FirstChild` | internal/bindings/xml.go:235-242 | the first child with the name |
| `XmlParser.FindAgrees` | internal/bindings/xml.go:224-248 | a path found in the linked nodes is the path found in the tree they stand for |
| `Calendar.NextDayNumber` | internal/bindings/funcs.go:927-937 | across month ends, leap days and ends of centuries the next day has the next number |
| `Calendar.CountsDays` | internal/bindings/funcs.go:927-937 | the number is the epoch's plus the days gone by |
| `Calendar.EveryDateCounted` | internal/bindings/funcs.go:927-937 | every date from year 0 on is the one its number counts |
| `Calendar.StrictlyIncreasing` | internal/bindings/funcs.go:927-937 | later dates have larger numbers |
| `DateFormat.FormatDate` | internal/bindings/funcs.go:798-829 | the byte loop prints token by token, for every year |
| `DateFormat.ParseDateStr` | internal/bindings/funcs.go:757-778 | the first of the three layouts that accepts the trimmed text |
| `DateFormat.LayoutReadsPlaces` | internal/bindings/funcs.go:762-778 | whatever a layout accepts, it reads each field from that field's place in the text |
| `DateFormat.ParseWithFormat` | internal/bindings/funcs.go:833-925 | the fixed layouts first, then the token and cursor loops |
| `DateFormat.ScanTokens` | internal/bindings/funcs.go:843-859 | the format's tokens, unknown ones without their percent sign |
| `DateFormat.ParseInvertsFormatIff` | internal/bindings/funcs.go:757-925 | for every format and year from 0 on: a text in a fixed layout gives every named field back exactly when each stands in its place; any other exactly when no token is unknown, years fill their places, a deciding two-digit year is of this century, and a year or month comes with month and day |
| `DateFormat.ParsesIffKnown` | internal/bindings/funcs.go:757-925 | with the years in their places, a printed date can be parsed exactly when no token is unknown or it is in a fixed layout |
| `DateLayouts.LayoutFormatsRecoverIff` | internal/bindings/funcs.go:757-925 | printed in the format of a fixed layout, exactly the dates with years of four digits come back |
| `DateLayouts.SwappedRecoversIff` | internal/bindings/funcs.go:833-837 | printed with day before month, a date comes back exactly when its day is its month or is no month |
| `DateLayouts.SwappedExample` | internal/bindings/funcs.go:833-837 | 5 June 2024 printed so is read as 6 May |
| `Mqtt.ValidateMqttPattern` | internal/bindings/mqtt.go:167-187 | accepts exactly the filters whose wildcards are whole levels, "#" the last |
| `Mqtt.MqttTopicMatch` | internal/bindings/mqtt.go:201-222 | agrees with the level-wise definition, the equality shortcut included |
| `Mqtt.MatchesIff` | internal/bindings/mqtt.go:201-222 | for an accepted filter: enough levels, and each plain level the topic's own |
| `Mqtt.EqualMatches` | internal/bindings/mqtt.go:201-204 | the shortcut never changes the answer |
| `Mqtt.PlusMatchesMore` | internal/bindings/mqtt.go:196-222 | weakening a level to "+" only adds topics |
| `Mqtt.HashMatchesMore` | internal/bindings/mqtt.go:196-222 | weakening a suffix to "#" only adds topics |
| `Mqtt.PrefixMatches` | internal/bindings/mqtt.go:196-222 | "a/#" matches "a" and everything below it |
| `Tabs.TabTable.InsertTab` | internal/bindings/tab.go:131-164 | the new tab stands at its index, the tabs from there on one place down, in range only |
| `Tabs.TabTable.RemoveTab` | internal/bindings/tab.go:167-201 | the tabs after the index move up by one, missing ones too, and nothing is left after them |
| `Tabs.TabTable.CloseGap` | internal/bindings/tab.go:188-196 | the place emptied and the loop over those after it, the length read again at each step |
| `Tabs.TabTable.MoveUp` | internal/bindings/tab.go:190-195 | one turn of that loop |
| `Tabs.TabTable.InsertThenRemove` | internal/bindings/tab.go:131-201 | removing a tab just inserted gives the tabs back |
| `Tabs.TabTable.RemoveThenInsert` | internal/bindings/tab.go:131-201 | inserting a tab just removed gives the tabs back exactly when it was there and was not the last after an empty place |

## Left out

- Numbers in Lua literals and JSON are exact texts; floating-point rounding and Go's choice of number format
  are not modelled.
- Strings are sequences of characters; invalid UTF-8 and the non-printable characters beyond ASCII that `%q`
  escapes are not modelled.
- The Lua scanner knows no long strings, hexadecimal or exponent numbers, numeric escapes or labels; the parser
  reads scripts of call statements with literal arguments, the last of which may be a function, whose body is
  passed over.
- LuaControls.ImportOptions: function-valued options, which the source files under inline, are not modelled.
- LuaControls.ControlReadsBack: controls with inline functions, whose text `lua_printer.go` prints, are outside it,
  and so are printed option keys with quotes, brackets, separators, an equals sign, a comment or blanks at an end.
- LuaControls.ControlReads: the same.
- LuaControls.BadControl: the same.
- LuaControls.ControlRoundTrip: the same.
- LuaScript.BlockReads: the same for each control; a handler kept is a `k.form.on` statement the parser reads.
- LuaScript.BlockReadsBack: the same; that the handlers' texts are captured again line by line is left to module
  `Importer`.
- LuaScript.BlockRoundTrip: the same.
- Importer.OwnedAreBare: goes one way only, as a wrapped claim of a form not known is not owned either.
- The decoder's nesting limit of 10000 is not modelled; the encoder stops at 200.
- SharedStore.RoundTripIffPlain: asked of finite values whose tables have no holes and no keys but indices and
  strings.
- StatementBuilders.GridUpdateMeans: table and key names with spaces are not asked about.
- StatementBuilders.GridDeleteMeans: the same.
- SharedStore.ConvertJsonGo: allocates a table after its entries; which address it gets cannot be seen.
- A key that is not in the shared store is taken to read as the empty text.
- The store behind `k.shared` (expiry, `incr`, `keys`, other processes) and file access are not modelled.
- SqlQuery.PageReads: column names that differ only in case are taken for different columns.
- SQL is given meaning by a reader of the generated fragments; how a database treats identifiers that begin
  with a digit or are keywords, comparisons and sorting is left to the database, as parameters.
- The author's own count query is a parameter, and so is the author's base query, whose text is not read.
- Reading link settings from control tables, and the documents' own validation messages, are not modelled.
- The wrapper of a whole exported script and splicing a form back into its source are not modelled.
- DateFormat.ParseInvertsFormatIff: asked of years from 0 on, since a year before 0 is printed with a sign; time
  zones and fractions of a second are not modelled.
- DateFormat.ParsesIffKnown: the same, and of dates whose years are printed as wide as they are read.
- Mqtt.MqttTopicMatch: section 4.7.2 of MQTT 3.1.1, topics beginning with `$`, is not in the code either.
- XML tokens come from the decoder of the standard library; its reading of text is not modelled.
- Rendering, sessions, the browser side, network and device bindings, CSV, YAML, cryptography and language
  models are not modelled.
