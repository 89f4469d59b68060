# Verified models of the Stone+ desktop gateway

Dafny models of the parts of Stone+ that edit other programs' settings, speak the Responses protocol on behalf of a
ChatGPT Work conversation, commit and roll back configuration files, restart agents, and account for token costs.
Each module follows one source file or one component of it. Code that computes is a function; code that loops over
a cursor or updates fields is a method or a class whose contract ties it to a function, and the properties are lemmas
about that function, over every input and every run.

`dafny verify dfyconfig.toml` checks the whole project.

## The modules

| modules | what they model |
|---|---|
| `Units`, `JsonText`, `JsonGrammar` | UTF-16 strings, JSON values, `JSON.parse` by way of tokens, `JSON.stringify` with an indentation |
| `JsonSyntax`, `JsonTrees`, `JsonLayout` | the grammar of RFC 8259 as trees, which `JSON.parse` reads exactly, and how `JSON.stringify` lays out and escapes |
| `JsoncGrammar`, `JsoncScanner`, `JsoncSoundness` | the JSONC scanner as a grammar, the scanning loops that refine it, and what the reported spans mean |
| `JsoncNesting`, `JsoncReading` | where literals and containers end, which units stripping and dropping commas take away, and what is then read |
| `JsoncPrint`, `JsoncEdit`, `JsoncEditLaw`, `JsoncLines`, `JsoncFixedPoint`, `JsoncKeep` | `setTopLevelProperty`: the edit law, what it writes, when a second edit changes nothing, what an edit leaves alone |
| `ManagedSettings`, `ManagedReading`, `SettingsRepair`, `MissingFile` | the two VS Code settings, what is read of them, their repair and its rollback, and what it makes of a missing file |
| `ToolInput`, `InputAgreement`, `ToolNames` | incremental decoding of a custom tool input, when it agrees with decoding the whole text, unique wire names |
| `EventStream`, `ResponsesStream` | the Responses event stream, as a state machine and as the class |
| `FrameOrder`, `LateCalls`, `StreamedInputs`, `RecordedStreams`, `TurnOutcome` | over all its runs: the frames of each item, which events move the text's place, which custom inputs fail the stream, which recorded wires are finished responses, which results a turn accepts |
| `ToolOutputs`, `ToolContinuation`, `TurnPlaces`, `ProtocolRuntime` | tool results, continuations, receipts, replays and flights, and where the turns of a run take place |
| `Files`, `DesktopCommit`, `DesktopRaces`, `DesktopPlans`, `DesktopContents`, `DesktopResults` | the four-file commit of the Claude desktop configuration, what it overwrites unseen, what a matching configuration holds, and what a repair and going back leave, property by property |
| `CliRestore`, `CliTranscript` | restoring and starting CLI instances, with compensation, and the calls they make |
| `LifecycleCoordinator`, `LifecycleObserved` | sleep and network recovery, and what it knows and starts, by its events |
| `ProcessRegistry`, `ProcessOutcome` | closing processes by verified identity, and what a close comes to |
| `TokenCost`, `TokenCharges` | token costs, credits and quota cycles, and which tokens are charged which price |
| `VersionOrder`, `TokenEstimate` | version comparison, token estimates |
| `RouteSources`, `RouteCompatibility`, `RouteRules`, `RoutePreview` | source topology, which clients may use a source, route previews |

## How it is modelled

- A string is a sequence of UTF-16 code units; `\s` is wider than the whitespace JSON allows, and that difference matters
  in several results.
- A thrown error is `None` or a failure constructor. Every call to the file system, a process port or a runtime port
  takes its outcome as an input: it may fail, and a failing write may or may not have taken effect. Other writers of a
  file act between any two steps.
- SHA-256 fingerprints are taken to be injective, so an output or a request stands for its own fingerprint. Random ids
  are fresh. Costs are reals.
- Methods of classes state the whole new state; the lemmas are about the functions they equal.

## What turned out otherwise than intended

- `renderManagedSettings` writes text that `managedSettingsMatch` cannot parse when the key's line is indented with
  whitespace that `\s` accepts and JSON does not, such as a no-break space. `RenderMatches` gives the exact condition,
  `UnreadableExample` a document.
- Rendering again is not always a no-op: after a lone carriage return a new property is not seen as starting a line, and
  its array is indented again. `SecondEdit` and `RenderTwice` give the exact condition, `UnsettledExample` a document.
- The text item's `output_index` is recomputed for every frame. In a finished response every item was added at the place
  it was done at if and only if no new call of a known tool started after the first text delta or was first seen in the
  result when there was text (`PlacesByEvents`); `LateExample` is a run that completes otherwise.
- The streamed and the final decoder of a custom input disagree on many texts. They agree exactly on an object whose only
  key is `input` and whose first and last values are the same string (`DecodersAgree`, which also covers texts without the
  expected header): a repeated key, another key or a text that is cut off separates them. The stream then fails exactly
  when what was streamed is no prefix of the final input, and that is what the longest join of the deltas decodes to such
  that it and every shorter one decode (`InputFails`): with a repeated key, when the first value is no prefix of the last
  (`RepeatedFails`, and `RepeatedExample` for a run); never when the decoders agree (`AgreedInputLasts`).
- A turn is recorded for replay although its last custom input has failed the stream, or although its frames could no longer
  be delivered; then its replay need not be a finished response. `RecordedWire` says exactly when it is, `FailedRecord` is a
  run that it is not.
- A version that does not parse is comparable with nothing. Incomparability passes on through a middle text if and only if
  it is not just the middle one that does not parse, between different versions (`UnparsedIsNoOrder`).
- A repair, a commit, the recovery of a failed commit and every rollback check a file and then write it, so what others write
  in between is lost. `LastForeign` of `SettingsRepair` and `CommitChecks`, `RestoreChecks` and `RollbackChecks` of
  `DesktopRaces` say exactly when; `LosingCommit` is a commit that reports the files as restored although its recovery has
  overwritten a foreign content.
- A CLI restore that fails leaves repairs standing when undoing one fails, and all of them when an instance that it has
  started again cannot be closed: then undoing is not tried at all (`NoneStands`).

## Model

| member | source | states |
|---|---|---|
| JsonGrammar.PrintParse | src/main/agent-lifecycle/claude-vscode-config.ts:300-304 | Parsing the printed text of any value, with any JSON whitespace as gap, gives the value back |
| JsonText.EscapeRoundTrip | src/main/agent-lifecycle/claude-vscode-config.ts:346 | Unescaping an escaped string (RFC 8259, section 7) yields it, lone surrogates and control characters included |
| JsonTrees.Accepts | src/main/agent-lifecycle/claude-vscode-config.ts:347 | Every text spelled by the grammar of RFC 8259 is read: its tokens are those of a tree, and the value is the tree's |
| JsonTrees.Reads | src/main/agent-lifecycle/claude-vscode-config.ts:458-460 | Every text that is read is spelled by that grammar, with a tree of its tokens whose value it has |
| JsonTrees.LastCounts | src/main/agent-lifecycle/claude-vscode-config.ts:458-460 | A repeated name has the value of its last member |
| JsonTrees.FirstPlaces | src/main/agent-lifecycle/claude-vscode-config.ts:458-460 | A repeated name keeps the place of its first member |
| JsonSyntax.SpellingReads | src/main/agent-lifecycle/claude-vscode-config.ts:347 | Each spelling of a literal, with letters, slashes and hex digits of either case, is read as the text it stands for |
| JsonSyntax.ReadIsSpelled | src/main/agent-lifecycle/claude-vscode-config.ts:347 | Every literal that is read is such a spelling |
| JsonSyntax.NumeralReads | src/main/agent-lifecycle/claude-vscode-config.ts:458-460 | Every numeral of section 6 of RFC 8259 is a number |
| JsonSyntax.NumberSpelled | src/main/agent-lifecycle/claude-vscode-config.ts:458-460 | Every number is such a numeral |
| JsonLayout.PrintShows | src/main/agent-lifecycle/claude-vscode-config.ts:300-304 | Each item and property on a line of its own, two spaces deeper than what holds it; empty arrays and objects on one line |
| JsonLayout.QuoteCanonical | src/main/agent-lifecycle/claude-vscode-config.ts:300-304 | A literal spells each unit with its letter, else as it is, else with lower-case hex digits; only control characters and lone surrogates need these |
| JsoncGrammar.ReadThenWrite | src/main/agent-lifecycle/claude-vscode-config.ts:328-362 | Every accepted document decomposes into well-formed members, and writing them back gives exactly the source |
| JsoncGrammar.WriteThenRead | src/main/agent-lifecycle/claude-vscode-config.ts:328-362 | Every well-formed document is accepted and read back as the same members |
| JsoncScanner.ScanRootObject | src/main/agent-lifecycle/claude-vscode-config.ts:328-362 | The cursor loop returns the brace and the spans of exactly the members of the grammar, and fails exactly when the grammar does |
| JsoncScanner.ScanValue | src/main/agent-lifecycle/claude-vscode-config.ts:364-380 | The end of the value the grammar reads at the index, or failure |
| JsoncScanner.ScanContainer | src/main/agent-lifecycle/claude-vscode-config.ts:382-410 | The delimiter stack finds the matching closing delimiter outside literals and comments, or fails |
| JsoncNesting.EndIsNested | src/main/agent-lifecycle/claude-vscode-config.ts:382-410 | A container that ends does so at its own closer, outside literals and comments, with all brackets in between nested |
| JsoncNesting.NestedIsEnd | src/main/agent-lifecycle/claude-vscode-config.ts:382-410 | And where the brackets in between are nested and its closer follows, it ends |
| JsoncScanner.ScanString | src/main/agent-lifecycle/claude-vscode-config.ts:412-425 | The end of the literal, although a backslash skips two units and may pass the end of the text |
| JsonSyntax.TailExactly | src/main/agent-lifecycle/claude-vscode-config.ts:412-425 | A literal ends at the first quote that is not escaped, with no unescaped line break before it: by positions, both ways |
| JsoncScanner.ScanScalar | src/main/agent-lifecycle/claude-vscode-config.ts:370-376 | Stops at the first unit that may end a scalar |
| JsoncScanner.SkipTrivia | src/main/agent-lifecycle/claude-vscode-config.ts:427-456 | Skips exactly whitespace and comments, and fails on an unclosed block comment |
| JsoncScanner.StripJsonComments | src/main/agent-lifecycle/claude-vscode-config.ts:462-490 | The loop computes the stripped text, or fails |
| JsoncScanner.RemoveTrailingCommas | src/main/agent-lifecycle/claude-vscode-config.ts:492-514 | The loop computes the text without trailing commas, or fails |
| JsoncReading.DropsExactly | src/main/agent-lifecycle/claude-vscode-config.ts:492-514 | Dropping commas takes away exactly the commas outside literals whose next unit that is no whitespace is a closing brace or bracket, and fails exactly on an open literal: by positions |
| JsoncReading.StripsExactly | src/main/agent-lifecycle/claude-vscode-config.ts:462-490 | Stripping replaces exactly the units of comments that are no line breaks by spaces, and fails exactly on an open literal or block comment: by positions |
| JsoncReading.TokensWithout | src/main/agent-lifecycle/claude-vscode-config.ts:492-514 | Dropping commas leaves, of any text with tokens, exactly the tokens without the commas in front of a closer |
| JsoncReading.TrailingCommaReads | src/main/agent-lifecycle/claude-vscode-config.ts:458-514 | Every array or object that is not empty, printed with a comma and whitespace before its closing delimiter, is read as itself |
| JsoncSoundness.ScanSpans | src/main/agent-lifecycle/claude-vscode-config.ts:328-362 | The spans are ordered, disjoint and inside the braces; each value span holds a value text; everything else is keys, colons, commas, braces and trivia |
| JsoncSoundness.StripKeepsStructure | src/main/agent-lifecycle/claude-vscode-config.ts:382-490 | Stripping keeps every literal in place, and the container scan finds the same end in the stripped text |
| JsoncSoundness.StripPositions | src/main/agent-lifecycle/claude-vscode-config.ts:462-490 | Stripping keeps the length and every line break's position |
| JsoncPrint.FormatIsPrint | src/main/agent-lifecycle/claude-vscode-config.ts:300-304 | Splitting the serialized text at line feeds and indenting the lines is printing with the line break and indentation as gap |
| JsoncPrint.PrintIsValueText | src/main/agent-lifecycle/claude-vscode-config.ts:300-380 | Every printed value is scanned as one value, whatever whitespace the gaps are |
| JsoncPrint.PrintParsesIff | src/main/agent-lifecycle/claude-vscode-config.ts:300-304 | It parses back if and only if it is on one line or the gap is JSON whitespace |
| JsoncEdit.ApplyBoth | src/main/agent-lifecycle/claude-vscode-config.ts:288-292 | With both edits the comma ends up before the property, also when they share an index: the sort is stable |
| JsoncEdit.InsertLaw | src/main/agent-lifecycle/claude-vscode-config.ts:271-292 | The sorted text edits of an insertion give the text of the document with the member appended |
| JsoncLines.EditWrites | src/main/agent-lifecycle/claude-vscode-config.ts:260-293 | What every edit that does not fail makes of a text, unit by unit: the one value with the key replaced, or a comma behind the last value that lacks it and the property on a line of its own |
| JsoncLines.InsertedExactly | src/main/agent-lifecycle/claude-vscode-config.ts:271-292 | Where a property goes, before the line of the closing brace if only whitespace stands there, what line break is put before it, and how it is spelled |
| JsoncLines.ReplacedExactly | src/main/agent-lifecycle/claude-vscode-config.ts:263-269 | The text around a replaced value stays, and the new one is laid out with the indentation of its key's line |
| JsoncLines.PropertyIndentExactly | src/main/agent-lifecycle/claude-vscode-config.ts:306-317 | A new property is indented like the first one when only whitespace, and some, precedes that in its line, else by two spaces |
| JsoncLines.GoesExactly | src/main/agent-lifecycle/claude-vscode-config.ts:273-275 | It goes where the line of the closing brace starts, if only whitespace precedes the brace there, else in front of the brace |
| JsoncLines.BreakExactly | src/main/agent-lifecycle/claude-vscode-config.ts:262 | Lines end in a carriage return and a line feed if that pair occurs anywhere, else in a line feed |
| JsoncEditLaw.EditRefines | src/main/agent-lifecycle/claude-vscode-config.ts:260-293 | The text edit is the edit of the document, and keeps documents well formed |
| JsoncEditLaw.EditLaw | src/main/agent-lifecycle/claude-vscode-config.ts:254-293 | The edit fails exactly on unscannable documents and repeated keys; else the result scans, with the same keys in order, the new one last, other values' texts unchanged, and the value parsing to the given one up to the whitespace condition |
| JsoncFixedPoint.SecondEdit | src/main/agent-lifecycle/claude-vscode-config.ts:260-293 | Editing again with the same value returns the same text if and only if the first edit settles |
| JsoncFixedPoint.UnsettledExample | src/main/agent-lifecycle/claude-vscode-config.ts:306-322 | A document with a lone carriage return whose second edit differs |
| JsoncKeep.EditKeeps | src/main/agent-lifecycle/claude-vscode-config.ts:260-293 | An edit of one key keeps every other property's key, value text and indentation |
| ManagedSettings.RenderMatches | src/main/agent-lifecycle/claude-vscode-config.ts:209-252 | Rendering fails only when reading does; the result matches if and only if the array's indentation is JSON whitespace, and then all unmanaged entries are kept in order before the two managed ones |
| ManagedReading.ReadsDocument | src/main/agent-lifecycle/claude-vscode-config.ts:232-252 | Reading a document gives the values of its one environment array and login setting; it fails exactly on unscannable documents, repeated keys and an environment that is unreadable or no array |
| ManagedReading.TrailingCommaIgnored | src/main/agent-lifecycle/claude-vscode-config.ts:232-252 | A document whose environment array has a trailing comma is read like the one without it |
| ManagedReading.MatchExactly | src/main/agent-lifecycle/claude-vscode-config.ts:209-216 | A document matches a target if and only if its login setting is true and its environment is an array with one variable for the address, one for the token and no third of either name |
| ManagedSettings.RenderTwice | src/main/agent-lifecycle/claude-vscode-config.ts:218-230 | Rendering the result again gives the same text if and only if it is readable and the first rendering settled |
| ManagedSettings.RenderKeeps | src/main/agent-lifecycle/claude-vscode-config.ts:218-230 | Every other setting keeps its place and text; missing managed settings are appended |
| ManagedSettings.UnreadableExample | src/main/agent-lifecycle/claude-vscode-config.ts:209-230 | A document that renders to text that cannot be read |
| SettingsRepair.VscodeConfig.Repair | src/main/agent-lifecycle/claude-vscode-config.ts:103-149 | Which result each outcome gives, what the file then holds, also when others write between the read and the write, and that a rollback to exactly the text read is returned only with a change |
| SettingsRepair.Rollback.Apply | src/main/agent-lifecycle/claude-vscode-config.ts:130-146 | One step of the rollback machine, with its result, also when others write between the check and the write |
| SettingsRepair.AtMostOnce | src/main/agent-lifecycle/claude-vscode-config.ts:127-146 | Whatever others write, at any moment, and whatever fails, a rollback succeeds at most once |
| SettingsRepair.RollbackExact | src/main/agent-lifecycle/claude-vscode-config.ts:127-146 | Without foreign writes a successful rollback restores exactly what was there, absence included |
| SettingsRepair.LastForeign | src/main/agent-lifecycle/claude-vscode-config.ts:127-146 | In every run the last content others wrote, unless it is the repaired text, is there at the end if and only if it did not come between an attempt's check and its write; then the previous content is there |
| SettingsRepair.WritesNothing | src/main/agent-lifecycle/claude-vscode-config.ts:127-146 | In every run attempts that cannot read, or whose writes do not happen, leave the file to the others and the rollback pending |
| SettingsRepair.TakenAt | src/main/agent-lifecycle/claude-vscode-config.ts:127-146 | An attempt that reads the repaired text and writes puts the previous content back, for good once it has reported so |
| SettingsRepair.RepairTwice | src/main/agent-lifecycle/claude-vscode-config.ts:103-155 | After a repair validation passes, and a second repair reports no change, exactly under the two conditions above |
| SettingsRepair.RepairMissing | src/main/agent-lifecycle/claude-vscode-config.ts:110-119 | A missing file is always repaired to matching, stable settings |
| MissingFile.RepairWrites | src/main/agent-lifecycle/claude-vscode-config.ts:103-125 | Exactly which file, unit by unit, a repair makes of a missing one, for every address and token |
| SettingsRepair.UnchangedMatches | src/main/agent-lifecycle/claude-vscode-config.ts:119 | A repair that reports no change leaves settings that match |
| ToolInput.PartialCustomToolInput | src/main/chatgpt-web-wm.ts:3486-3515 | The loop decodes the literal behind the header, with its cut escapes |
| ToolInput.PartialGrows | src/main/chatgpt-web-wm.ts:3486-3515 | If arguments and an extension of them both decode, the first result is a prefix of the second |
| ToolInput.PartialRefines | src/main/chatgpt-web-wm.ts:3478-3515 | On a complete document both decoders give the literal's value; on every cut the incremental one gives a prefix of it, or nothing exactly when the header is cut after 32 units |
| ToolInput.RepeatedKey | src/main/chatgpt-web-wm.ts:3478-3515 | With a repeated key the two decoders give the first and the last value |
| InputAgreement.DecodersAgree | src/main/chatgpt-web-wm.ts:3478-3515 | The streamed and the final decoder agree on a text behind a header if and only if it is an object with only `input` keys whose first and last values are the same string; without a header, only on two kinds of empty input |
| InputAgreement.UnreadableSeparates | src/main/chatgpt-web-wm.ts:3478-3484 | Arguments behind a header that do not parse are the final input as they stand, which the streamed decoder never gives |
| InputAgreement.OtherKeySeparates | src/main/chatgpt-web-wm.ts:3478-3484 | So are arguments behind a header with any other key |
| ToolNames.UniqueToolName | src/main/chatgpt-web-wm.ts:3465-3476 | The loop ends with a name not used before, the first free candidate |
| EventStream.EventGrammar | src/main/chatgpt-web-wm.ts:3533-4063 | In every run frames are numbered 0, 1, 2, ..., the two opening ones come first and only there, and a terminal frame is last and closes the stream |
| EventStream.ResponseAgreement | src/main/chatgpt-web-wm.ts:3617-3939 | In every finished response each item was added once and done once at its place, its deltas join to its value, nothing else was added, and all were added at their place if and only if no call came after the text |
| EventStream.ResponseIsResult | src/main/chatgpt-web-wm.ts:593-699 | A finished response shows exactly the text and calls of the turn's result, whatever was streamed before, and satisfies the tool constraint |
| TurnOutcome.TurnEnds | src/main/chatgpt-web-wm.ts:593-699 | In every run whose frames are delivered a turn ends with a finished response if and only if its result is of the right model, each declared call is named once and repeats what was streamed of it, every streamed call is among them, no final input contradicts its stream, the constraint is met, it is not empty unless incomplete, and its text extends the streamed one |
| TurnOutcome.KnownIn | src/main/chatgpt-web-wm.ts:625-627 | The calls that are looked at are exactly those with an id and a declared name |
| TurnOutcome.KnownJoin | src/main/chatgpt-web-wm.ts:625-627 | They keep their order |
| FrameOrder.ItemGrammar | src/main/chatgpt-web-wm.ts:3617-3939 | In every run the frames of each item come in order: added, deltas, value, done, text with its part; a call's all at its index, the text's last ones at one index, every value repeating the deltas; and in a finished response every item that was added is done |
| LateCalls.PlacesByEvents | src/main/chatgpt-web-wm.ts:3617-3793 | In a finished response every item was added at the place it is done at, if and only if no new call of a known tool started after the first text delta or was first seen in the result when there was text |
| LateCalls.LateExample | src/main/chatgpt-web-wm.ts:3844-3898 | A run with a call after text that completes, with the text added at one place and done at another |
| StreamedInputs.InputFails | src/main/chatgpt-web-wm.ts:3641-3669 | In every run, finishing a custom call fails the stream if and only if what its deltas streamed, which is what their longest join decodes to such that it and every shorter one decode, is no prefix of the final input |
| StreamedInputs.AgreedInputLasts | src/main/chatgpt-web-wm.ts:3641-3669 | Arguments on which both decoders agree never fail the stream, however they are cut into deltas |
| StreamedInputs.RepeatedFails | src/main/chatgpt-web-wm.ts:3900-3912 | Arguments with a repeated key fail the stream if and only if the first value is no prefix of the last, however they are cut |
| StreamedInputs.RepeatedExample | src/main/chatgpt-web-wm.ts:3900-3912 | A run that such arguments fail |
| RecordedStreams.RecordedWire | src/main/chatgpt-web-wm.ts:593-699 | In every run the wire of a recorded turn is a finished response if and only if the frames could be delivered and no final custom input failed the stream, or they could not and there was nothing to send before the terminal frame |
| RecordedStreams.ResentWire | src/main/chatgpt-web-wm.ts:1152-1178 | Resending the turn's request gets, if it gets a replay, a finished response under exactly that condition |
| RecordedStreams.FailedRecord | src/main/chatgpt-web-wm.ts:677-691 | A run that is recorded although its last custom input has failed the stream |
| ResponsesStream.ResponsesEventStream.Event | src/main/chatgpt-web-wm.ts:3976-3991 | A frame is on the wire before delivery is tried, and only a delivered one is counted |
| ResponsesStream.ResponsesEventStream.AppendText | src/main/chatgpt-web-wm.ts:3777-3793 | Text deltas first finish the reasoning item and add the text item once; a delta that is delivered joins the text, one that is not closes the stream |
| ResponsesStream.ResponsesEventStream.StartToolCall | src/main/chatgpt-web-wm.ts:3617-3639 | A closed stream, a known id or an unknown tool changes nothing; otherwise reasoning is finished first, and the call takes the next place of the output with one added frame |
| ResponsesStream.ResponsesEventStream.AppendToolCallDelta | src/main/chatgpt-web-wm.ts:3641-3669 | The delta joins the raw arguments; functions stream it, custom tools stream what newly decodes, until decoding fails or takes something back |
| ResponsesStream.ResponsesEventStream.FinishToolCall | src/main/chatgpt-web-wm.ts:3671-3675 | The rest of the input is streamed, then the value and the item are done at the call's own place, or the stream fails when the final input does not extend what was streamed |
| ResponsesStream.ResponsesEventStream.ReconcileToolCalls | src/main/chatgpt-web-wm.ts:3677-3701 | The loop over the final calls starts, completes or checks each, and succeeds only when no id repeats and every streamed call is among them |
| ResponsesStream.ResponsesEventStream.Conclude | src/main/chatgpt-web-wm.ts:3711-3751 | The text is completed or the stream fails; then text and reasoning are finished and one terminal frame with the whole output closes the stream |
| ResponsesStream.ResponsesEventStream.FinishTurn | src/main/chatgpt-web-wm.ts:593-699 | Every failure of a turn's result ends in one failed frame; otherwise calls are reconciled and the response concluded |
| ToolOutputs.CollectExact | src/main/chatgpt-web-wm.ts:3052-3082 | The outputs are exactly the results of the request, each call once; collecting fails if and only if two results of a call differ |
| ToolOutputs.CollectOrder | src/main/chatgpt-web-wm.ts:3052-3082 | The outputs stand in the order of the first results of their calls |
| ToolOutputs.ResponseToolOutputs | src/main/chatgpt-web-wm.ts:3052-3082 | The loop with its fingerprint map computes that collection |
| ToolOutputs.HasReplayableVisibleToolHistory | src/main/chatgpt-web-wm.ts:3091-3119 | True if and only if there is a result, and every result has one earlier call of its id and kind and is its only result |
| ToolContinuation.OneOwner | src/main/chatgpt-web-wm.ts:548-572 | In every interleaving a call id belongs to at most one running turn, and a release removes only its own flights |
| ToolContinuation.ConsumedOnce | src/main/chatgpt-web-wm.ts:480-572 | Once an output is recorded, no later request of any run sends a native result for its call id |
| ToolContinuation.ContinuationSound | src/main/chatgpt-web-wm.ts:820-942 | A native continuation has one conversation and one parent; each output is bound there or an exact receipt of that conversation; the consumed ids are the bound ones |
| ToolContinuation.ReplaySound | src/main/chatgpt-web-wm.ts:1091-1125 | A replay is unexpired, answers exactly this request, covers exactly its outputs, and all outputs have receipts of its conversation |
| ToolContinuation.AfterLatestAssistantMessage | src/main/chatgpt-web-wm.ts:3281-3296 | The loop keeps exactly what follows the last assistant message, or everything |
| ToolContinuation.FindReasoningState | src/main/chatgpt-web-wm.ts:991-1008 | The backward loop finds the last opaque reasoning state, or none when there is none |
| ToolContinuation.DropPriorExact | src/main/chatgpt-web-wm.ts:3260-3268 | What is dropped behind a reasoning state is exactly the run of earlier output at the front |
| ToolContinuation.ResendReplays | src/main/chatgpt-web-wm.ts:856-877 | Resending a recorded turn's request, in every case in which a replay is looked for, yields its stream if and only if the outputs it did not consume still have their receipts |
| TurnPlaces.PlainTurn | src/main/chatgpt-web-wm.ts:820-985 | A request whose turn has no tool result, and whose previous response is not lost, runs where its live previous response ended, else where its last reasoning state was given, else in a new conversation |
| TurnPlaces.LostIsRejected | src/main/chatgpt-web-wm.ts:835-847 | A request whose previous response is gone and whose input shows no history is refused, and so are conflicting results |
| TurnPlaces.ResultsOutcome | src/main/chatgpt-web-wm.ts:878-961 | A request with tool results is a replay, or runs natively in the one conversation and message all its results belong to, or is rebuilt from its history in a new conversation, or is refused: in exactly which case |
| TurnPlaces.CurrentItems | src/main/chatgpt-web-wm.ts:848-853 | Which items belong to the turn: behind the last assistant message, or behind the bound reasoning state and the earlier output after it, or all but an unbound one |
| TurnPlaces.NamedFollowUp | src/main/chatgpt-web-wm.ts:480-541 | In every run, after a response was given, until its binding expires, is replaced or is lost, a request that names it and has no new tool result launches a turn at its conversation and message |
| TurnPlaces.StateFollowUp | src/main/chatgpt-web-wm.ts:480-541 | The same for a request that carries its token as the last reasoning state and names no live response |
| TurnPlaces.ResultsFollowUp | src/main/chatgpt-web-wm.ts:480-541 | The same for a request with results of calls that the response made and nobody recorded: it runs natively there and sends each result for its tool |
| TurnPlaces.ExpiredIsLost | src/main/chatgpt-web-wm.ts:1024-1040 | A request that names an expired response, and shows no history, is refused and starts nothing |
| TurnPlaces.ExpiredState | src/main/chatgpt-web-wm.ts:1024-1040 | An expired reasoning state opens a new conversation |
| TurnPlaces.ExpiredCall | src/main/chatgpt-web-wm.ts:1024-1040 | A result of an expired call that was not consumed is refused, unless it is replayed or rebuilt |
| TurnPlaces.ForgottenIsLost | src/main/chatgpt-web-wm.ts:1010-1064 | What is deleted early is lost to later requests, and nothing else is: a deleted response is refused, and with no replay kept nothing is replayed |
| TurnPlaces.NoLookNoReplay | src/main/chatgpt-web-wm.ts:833-878 | A request that continues from a reasoning state, with no live previous response, is never answered by a replay |
| ProtocolRuntime.Runtime.Responses | src/main/chatgpt-web-wm.ts:480-541 | The object's maps step as the machine does up to the start of the turn; where that turn takes place is stated by the rows of TurnPlaces |
| ProtocolRuntime.Runtime.ReserveToolOutputFlight | src/main/chatgpt-web-wm.ts:556-572 | Every id of the turn maps to its flight, the others are unchanged |
| ProtocolRuntime.Runtime.ReleaseToolOutputFlight | src/main/chatgpt-web-wm.ts:564-571 | Exactly the ids that are still the turn's own are deleted |
| ProtocolRuntime.Runtime.RememberToolOutputReplay | src/main/chatgpt-web-wm.ts:1152-1178 | Receipts, bindings and replays step as the machine does |
| DesktopCommit.AllOrNothing | src/main/agent-lifecycle/claude-desktop-config.ts:246-304 | With any subset of operations failing and no foreign writer, all planned files are new, or the error says restored and all are as before; otherwise each is as before or as planned |
| DesktopCommit.RefusedWritesNothing | src/main/agent-lifecycle/claude-desktop-config.ts:291-304 | A refused restore writes nothing |
| DesktopCommit.ForeignIsRefused | src/main/agent-lifecycle/claude-desktop-config.ts:291-299 | A foreign content that is there when the restore reads it, whenever it was put there, makes the restore write nothing |
| DesktopRaces.CommitChecks | src/main/agent-lifecycle/claude-desktop-config.ts:246-304 | Whatever others write and whatever fails, every write of a commit and of its recovery puts the planned content over the previous one, or back, as the last read of the file has seen it; it overwrites something else if and only if others put that there between that read and the write |
| DesktopRaces.RestoreChecks | src/main/agent-lifecycle/claude-desktop-config.ts:291-304 | A restore reads plan i at call i and puts it back after the reads and the writes of the later plans that differ; that write finds something else than was read if and only if others put that there after call i and before the write |
| DesktopRaces.RollbackChecks | src/main/agent-lifecycle/claude-desktop-config.ts:270-289 | The same holds of every write of a rollback, however often it is attempted |
| DesktopRaces.LastForeign | src/main/agent-lifecycle/claude-desktop-config.ts:246-304 | After any such calls the last content others put in a file is there, unless a write of the file from that moment on took effect |
| DesktopRaces.LosingCommit | src/main/agent-lifecycle/claude-desktop-config.ts:246-304 | A commit that fails and reports the files as restored, although its recovery has overwritten what others wrote |
| DesktopCommit.RollbackExact | src/main/agent-lifecycle/claude-desktop-config.ts:246-289 | However often a rollback is called, files are as before or as planned; once it succeeded they are exactly as before and stay so |
| DesktopCommit.DesktopConfig.CommitPlans | src/main/agent-lifecycle/claude-desktop-config.ts:246-289 | The loop and its recovery do what the commit machine does |
| DesktopCommit.DesktopConfig.RestorePlans | src/main/agent-lifecycle/claude-desktop-config.ts:291-304 | The check and the reversed loop do what the restore machine does |
| DesktopCommit.PendingRollback.Apply | src/main/agent-lifecycle/claude-desktop-config.ts:270-289 | One call of the rollback closure, which takes effect at most once |
| DesktopPlans.RenderStable | src/main/agent-lifecycle/claude-desktop-config.ts:481-488 | What is rendered once is rendered as it stands, for every settling change |
| DesktopPlans.WantedMatches | src/main/agent-lifecycle/claude-desktop-config.ts:328-424 | The contents a repair wants match, and a second repair wants the same |
| DesktopContents.MatchMeans | src/main/agent-lifecycle/claude-desktop-config.ts:354-445 | A configuration that matches selects third-party deployment in both files, holds every gateway property and the client header, applies Stone+'s profile and lists it once, complete, whatever the order of properties |
| DesktopPlans.RepairEstablishes | src/main/agent-lifecycle/claude-desktop-config.ts:175-194 | A committed repair leaves a matching configuration that a further repair does not change; a failed and restored one leaves the files there were |
| DesktopResults.RepairContents | src/main/agent-lifecycle/claude-desktop-config.ts:328-445 | A repair fails exactly when a file is no JSON object, the custom headers are no object or the list is no array; otherwise both files select the third party, the profile holds every gateway property and the client header, Stone+'s first entry is completed in its place or added at the end, further ones are left out, and every other property, header and entry keeps its value |
| DesktopResults.RepairLeaves | src/main/agent-lifecycle/claude-desktop-config.ts:175-194 | After a committed repair the files hold exactly that |
| DesktopPlans.OfficialUndoesRepair | src/main/agent-lifecycle/claude-desktop-config.ts:426-468 | Repairing and going back lists exactly the foreign entries in order, with no Stone+ profile applied |
| DesktopPlans.OfficialStable | src/main/agent-lifecycle/claude-desktop-config.ts:343-394 | The contents that going back wants are wanted again; what they are is stated by the next row |
| DesktopResults.OfficialContents | src/main/agent-lifecycle/claude-desktop-config.ts:343-468 | Going back fails exactly when a file that is kept is no JSON object; otherwise both configuration files store "1p", the profile is absent, the enterprise configuration loses exactly the five gateway properties and is gone when nothing is left, the list keeps exactly the foreign entries in order, the first named one is applied if Stone+'s was, and every other property keeps its value |
| DesktopResults.OfficialEstablishes | src/main/agent-lifecycle/claude-desktop-config.ts:196-208 | After a committed return the files hold exactly that, and returning again has nothing to do; a failed and restored one leaves the files there were |
| DesktopResults.DeepObjects | src/main/agent-lifecycle/claude-desktop-config.ts:486 | Objects are deeply equal exactly when they have the same properties with deeply equal values, in any order |
| CliRestore.RestoreKeepsRules | src/main/agent-lifecycle/cli-connection-adapter.ts:264-383 | For every failure point only instances of the first snapshot are closed, only closed ones are started, undoing is tried in reverse with nothing running, nothing is started after a failed undo; undoing is tried for every repair, or for none when a restarted instance could not be closed; the repairs that stand are exactly those not tried and those that failed |
| CliRestore.NoneStands | src/main/agent-lifecycle/cli-connection-adapter.ts:264-359 | A failed restore leaves no repair standing if and only if every undo and every close of a restarted instance worked |
| CliRestore.StartedAgain | src/main/agent-lifecycle/cli-connection-adapter.ts:264-359 | After a failed close, repair or restart every closed instance was asked to start again, unless an undo or the close of a restarted one failed |
| CliRestore.RestoreSucceeds | src/main/agent-lifecycle/cli-connection-adapter.ts:264-347 | A success has closed, repaired and validated everything, and every closed instance was reported running when that was asked for |
| CliRestore.DirectoriesExact | src/main/agent-lifecycle/cli-connection-adapter.ts:291-292 | The scopes are each directory of a running instance once |
| CliRestore.StartCompensates | src/main/agent-lifecycle/cli-connection-adapter.ts:181-235 | For every failure point of a connected start: repair and validation precede the launch, a failure undoes the repair, and after a failed launch the repair is undone only when every newly running instance is closed |
| CliRestore.StartOwns | src/main/agent-lifecycle/cli-connection-adapter.ts:207-220 | A start closes only instances that a failed launch left running and that were not running before |
| CliRestore.SelectedLatest | src/main/agent-lifecycle/cli-connection-adapter.ts:190-194 | The instance whose directory is repaired is the first of the latest started of the profile |
| CliTranscript.RestoreTranscript | src/main/agent-lifecycle/cli-connection-adapter.ts:264-383 | Which calls a restore makes, in which order, for every way in which they may fail |
| CliTranscript.SucceedsExactly | src/main/agent-lifecycle/cli-connection-adapter.ts:264-347 | It succeeds only when no call has failed and the look after starting again shows all of them running, and fails only when a call has failed or that look does not |
| CliTranscript.CloseTranscript | src/main/agent-lifecycle/cli-connection-adapter.ts:237-262 | Closing looks, closes the running instances in order up to the first failure, and succeeds exactly when no call fails |
| CliTranscript.RunningJoin | src/main/agent-lifecycle/cli-connection-adapter.ts:238-241 | The running instances are kept in their order |
| CliTranscript.StartTranscript | src/main/agent-lifecycle/cli-connection-adapter.ts:181-235 | A start succeeds exactly when nothing is missing and no call fails; the calls of every other outcome, in order: after a failed validation or launch the one repair is undone, behind the closing of what the launch left running |
| CliTranscript.ScopeExactly | src/main/agent-lifecycle/cli-connection-adapter.ts:190-194 | Which directory is configured: of the first of the latest started instances of the profile, else the usual one |
| CliRestore.CliAdapter.RestoreUnlocked | src/main/agent-lifecycle/cli-connection-adapter.ts:264-347 | The method asks exactly what the restore machine asks |
| CliRestore.CliAdapter.CloseUnlocked | src/main/agent-lifecycle/cli-connection-adapter.ts:237-262 | The loop closes in order up to the first failure |
| CliRestore.CliAdapter.RestartManaged | src/main/agent-lifecycle/cli-connection-adapter.ts:361-383 | Starts all, and reports no error exactly when all started and the snapshot shows them running |
| CliRestore.CliAdapter.RollbackRepairs | src/main/agent-lifecycle/cli-connection-adapter.ts:349-359 | Undoes all repairs from the last to the first |
| CliRestore.CliAdapter.Start | src/main/agent-lifecycle/cli-connection-adapter.ts:181-235 | The method asks exactly what the start machine asks |
| LifecycleCoordinator.CoordinatorRuns | src/main/system-lifecycle.ts:54-164 | In every run: rebuild and timer never coexist, no timer while suspended or closed, starts at least the debounce apart, an owed recovery is on its way or blocked, waiters only while not idle |
| LifecycleCoordinator.StartsInTurn | src/main/system-lifecycle.ts:131-154 | Rebuilds start one at a time, never while suspended or closed, and no waiter is forgotten |
| LifecycleCoordinator.ClosedForGood | src/main/system-lifecycle.ts:81-93 | Once closed nothing starts, and every waiter is resolved when no rebuild runs |
| LifecycleCoordinator.BackOnline | src/main/system-lifecycle.ts:54-164 | From any state of a run, a network that a poll finds back, or a resume finds there, leads to a rebuild in every trace without suspension or close: it is on its way until it starts, the first timer that fires starts it, and a running rebuild that finishes starts it or sets the timer for the end of the debounce |
| LifecycleObserved.Observed | src/main/system-lifecycle.ts:54-109 | In every run: closed, polling and suspended are what the events said, and online is what the last resume, or the last poll while not suspended, saw |
| LifecycleObserved.LastSeen | src/main/system-lifecycle.ts:71-109 | The last resume, or poll while not suspended, decides what was seen |
| LifecycleObserved.NetworkBack | src/main/system-lifecycle.ts:100-129 | In every run: when a poll saw the network gone and, without suspension or close since, a later poll is the first to see it back, a rebuild has started since or is on its way |
| LifecycleObserved.NoneUnasked | src/main/system-lifecycle.ts:71-150 | In every run there are at most as many rebuilds, started or to come, as resumes that found the network and polls that found it back |
| LifecycleObserved.WaitsForIdle | src/main/system-lifecycle.ts:95-98 | A waiter is resolved only while no rebuild runs or is to come, and nobody is left waiting then |
| LifecycleCoordinator.Coordinator.Handle | src/main/system-lifecycle.ts:54-164 | The object handles every event as the machine does, and keeps the invariant |
| ProcessRegistry.SignalSafety | src/main/agent-lifecycle/managed-process-registry.ts:122-195 | One close sends at most one graceful and one forced signal, each right after a matching observation; it fails, and its entry stays, if and only if it does not end with seeing that the process is gone; the looks are bounded |
| ProcessOutcome.CloseDecides | src/main/agent-lifecycle/managed-process-registry.ts:122-195 | Every look says what the adapter found, with the same PID, start time and path for a match; a process that matches at first gets the graceful signal, one that still matches after it the forced one, and the log decides the result |
| ProcessOutcome.GraceGiven | src/main/agent-lifecycle/managed-process-registry.ts:137-146 | The graceful phase lasts its whole time unless the signal or a look fails or the process is seen gone |
| ProcessOutcome.ForceDecides | src/main/agent-lifecycle/managed-process-registry.ts:148-161 | The forced phase looks first, signals exactly a process that still matches, and fails only when the signal or a look fails or its time is over |
| ProcessRegistry.WaitFacts | src/main/agent-lifecycle/managed-process-registry.ts:167-175 | A wait signals nothing, polls a bounded number of times, and reports an exit only after seeing it |
| ProcessOutcome.WaitEnds | src/main/agent-lifecycle/managed-process-registry.ts:167-175 | A wait ends with a look that fails, shows the process gone, or still matches when the time is over |
| ProcessOutcome.PollsExactly | src/main/agent-lifecycle/managed-process-registry.ts:167-175 | When only sleeping takes time it polls once, and once more for every started poll interval |
| ProcessRegistry.PruneOnlyLooks | src/main/agent-lifecycle/managed-process-registry.ts:112-120 | Pruning signals nothing; what it drops it has seen gone, what it looked at and keeps it has seen not gone, and the rest stays |
| ProcessRegistry.OneOperation | src/main/agent-lifecycle/managed-process-registry.ts:97-106 | Concurrent closes of an id share one operation |
| ProcessRegistry.Registry.CloseRegistered | src/main/agent-lifecycle/managed-process-registry.ts:122-165 | The method does what the close machine does, for every answer of the adapter |
| ProcessRegistry.Registry.WaitUntilOriginalExited | src/main/agent-lifecycle/managed-process-registry.ts:167-175 | The polling loop does what the wait machine does |
| ProcessRegistry.Registry.PruneStale | src/main/agent-lifecycle/managed-process-registry.ts:112-120 | The loop removes exactly the entries seen not to match |
| TokenCost.Conservation | src/shared/openai-pricing.ts:499-588 | Over any logs total is input plus output and priced plus unpriced, total cost is the sum of its parts, the kinds of input are part of the input, and unpriced tokens, requests and models agree |
| TokenCost.PricedInputSplits | src/shared/openai-pricing.ts:535-561 | Standard, cached and cache-write tokens add up to exactly the input of the priced logs |
| TokenCost.FlatRate | src/shared/openai-pricing.ts:535-566 | At a flat rate the cost of any logs is their priced tokens at that rate: no token is charged twice or missed |
| TokenCost.Accumulate | src/shared/openai-pricing.ts:499-569 | Updating the accumulator adds the log's share, for any reported counts; what that is charged is stated by the rows of TokenCharges |
| TokenCharges.CostsByKind | src/shared/openai-pricing.ts:499-569 | Over any logs input, cached, write, output and total cost are the charges of their own kinds of tokens: amount, own price, and the multiplier of its side beyond the threshold |
| TokenCharges.OneKind | src/shared/openai-pricing.ts:499-569 | When only one kind of token has a price, the total cost is the tokens of that kind at that price; one-hour writes have their own price or that of other writes |
| TokenCharges.OwnPrices | src/shared/openai-pricing.ts:547-566 | Each cost changes only with the prices of its own kinds |
| TokenCharges.CountsByKind | src/shared/openai-pricing.ts:499-569 | Over any logs the tokens of each kind, the numbers of charged, uncharged and long requests, and exactly the models that have no price |
| TokenCharges.SplitLargest | src/shared/openai-pricing.ts:535-543 | Cached reads, then writes, then one-hour writes are as large as the input and the reports allow, and the rest is standard input |
| TokenCharges.OneSplit | src/shared/openai-pricing.ts:535-543 | No other parts are as large as allowed |
| TokenCost.EstimateJoin | src/shared/openai-pricing.ts:584-588 | The estimate of a concatenation is the sum of the estimates |
| TokenCost.CreditConservation | src/shared/openai-pricing.ts:411-457 | Credits count the same tokens and requests as dollars do, and add up |
| TokenCharges.CreditsByKind | src/shared/openai-pricing.ts:411-457 | Credits are charged for standard input, cached reads and output at their own rates, and nothing for cache writes |
| TokenCost.Overview | src/shared/openai-pricing.ts:596-617 | One pass gives the estimate of all logs and of today's |
| TokenCost.OverageStart | src/shared/openai-pricing.ts:724-751 | The earliest observation that proves an overage, if and only if there is one |
| TokenCost.QuotaCycleCosts | src/shared/openai-pricing.ts:619-714 | Usage counts for a window within its bounds, and as hidden exactly when it lies in one of the two windows at or after an observation of that account, within the bounds and not of another known reset time, at 100 percent or more; no log counts twice |
| TokenCharges.WindowTimes | src/shared/openai-pricing.ts:619-771 | Which times lie in the two windows, from their lengths, reset times and fallbacks |
| TokenCharges.ProofTimes | src/shared/openai-pricing.ts:724-759 | Which observations prove an overage: of the account, in the window, at 100 percent or more, with reset times at most five minutes apart if both are known |
| TokenCharges.DayLogs | src/shared/openai-pricing.ts:596-617 | Today's costs are those of all logs from its first moment until before tomorrow |
| TokenCharges.CycleLogs | src/shared/openai-pricing.ts:619-722 | A cycle's costs are those of all logs of the account within it, and hidden are those in either overage, once |
| TokenCost.CycleSummary | src/shared/openai-pricing.ts:657-676 | The single pass equals filtering by account and window and then folding; hidden usage is the fold over the union of both overages |
| TokenCost.HiddenOnce | src/shared/openai-pricing.ts:657-675 | Hidden usage and the overlap of the overages together are the two overages: each log counts once |
| TokenCost.HiddenWithin | src/shared/openai-pricing.ts:657-675 | An overage's tokens are part of its window's |
| VersionOrder.VersionIsOlder | src/shared/wm-routing.ts:54-83 | The two loops decide the order of padded cores and then of prereleases |
| VersionOrder.StrictWeakOrder | src/shared/wm-routing.ts:54-83 | Given a total order on words: irreflexive, asymmetric, transitive, with transitive incomparability (SemVer 2.0.0, clause 11) |
| VersionOrder.Trichotomy | src/shared/wm-routing.ts:54-83 | Exactly one of two versions is older, or they are equal up to trailing zeros |
| VersionOrder.CoreDecides | src/shared/wm-routing.ts:58-63 | The smaller number at the first difference of the cores is older, and a missing number is zero |
| VersionOrder.ZerosAreSame | src/shared/wm-routing.ts:58-63 | Trailing zeros of a core make no difference |
| VersionOrder.ReleaseIsLast | src/shared/wm-routing.ts:64-66 | A version is younger than its prereleases |
| VersionOrder.PrereleaseDecides | src/shared/wm-routing.ts:67-82 | At the first difference of prereleases numbers compare as numbers and come before words, words by their order, and a longer one is younger |
| VersionOrder.UnparsedIsNoOrder | src/shared/wm-routing.ts:54-83 | With texts that may not parse, incomparability passes from two pairs to the third if and only if it is not just the middle text that does not parse between different versions |
| VersionOrder.UnparsedExample | src/shared/wm-routing.ts:57 | A text between two different versions that is comparable with neither |
| TokenEstimate.EstimateTokens | src/shared/web-wm-responses.ts:25-53 | The loop's count is the UTF-8 length (RFC 3629, section 3, lone surrogates as three bytes), and the result is the estimate rounded up |
| TokenEstimate.Utf8RoundTrip | src/shared/web-wm-responses.ts:30-51 | The encoding that is counted can be decoded again, for every UTF-16 string |
| TokenEstimate.Utf8Join | src/shared/web-wm-responses.ts:41-49 | Joining adds the lengths, less two bytes exactly when a surrogate pair is put together |
| TokenEstimate.Subadditive | src/shared/web-wm-responses.ts:25-53 | The rounded estimate of a join is at most the sum of the estimates |
| TokenEstimate.Monotone | src/shared/web-wm-responses.ts:25-53 | More text never lowers the estimate |
| RouteSources.Index | src/shared/route-sources.ts:89-105 | The first record of each id, and exactly the ids that occur twice |
| RouteSources.IsTopologyValid | src/shared/route-sources.ts:117-150 | True if and only if every member names one unique account with one unique provider, all of one family, and each fits the pool's kind and protocol |
| RouteRules.FitsExactly | src/shared/pool-protocol.ts:25-54 | Which accounts a pool takes, protocol by protocol: keys and xAI logins of Grok, verified ChatGPT logins, relays and all others with the protocol of the wire |
| RouteRules.FamiliesExactly | src/shared/source-family.ts:6-27 | Two kinds share a pool when they are the same or one is the compatible form of the other |
| RouteCompatibility.ResolveSound | src/shared/route-sources.ts:178-243 | A resolved id names a pool or a provider, never both; a pool's accounts are exactly its enabled members, a provider has exactly one account with its own key |
| RouteRules.ResolvesExactly | src/shared/route-sources.ts:178-243 | An id resolves to the first pool with it when no provider has it, else to the first provider with it when that is no system login and one account, with a key, is all it has; and to nothing else |
| RouteCompatibility.VirtualPoolValid | src/shared/route-sources.ts:211-230 | The pool made for a provider has a valid topology if and only if its account and provider are listed once |
| RouteCompatibility.EligibleAuthorizes | src/shared/route-sources.ts:417-524 | An eligible source authorizes each of its accounts: Web WM only verified and for Codex, Kiro only with the tool test and for Claude, DeepSeek only for its clients, Grok Build only native Grok |
| RouteRules.EligibleExactly | src/shared/route-sources.ts:357-524 | A source serves a client if and only if its topology is valid and it breaks none of the rules, told by the providers its accounts belong to, although each rule looks them up in its own way; and whether it is used natively, translated or by way of Kiro |
| RoutePreview.JudgeAccount | src/shared/source-eligibility.ts:152-168 | Unsupported if and only if a required capability is denied or the provider is missing; verified if and only if all are proved |
| RoutePreview.EvaluateSource | src/shared/source-eligibility.ts:78-119 | The lists hold exactly the members that support the model, by verdict, in order |
| RoutePreview.CandidatesSound | src/shared/source-eligibility.ts:112-150 | Every candidate supports the model and is denied nothing; there is none if and only if every supporting member is denied something |
| RoutePreview.PreviewRoute | src/shared/route-preview.ts:24-140 | Blocked if and only if no account is counted or the inbound protocol is not the client's own, although the issues are pushed in many branches; warned if and only if it is not, and the route is disabled or a required capability is unproved; each such capability is reported once, and every other issue exactly in its case |
| RoutePreview.CountedSound | src/shared/route-preview.ts:54-95 | Every counted account is schedulable, supports the model, has nothing required marked false, is listed once with its provider, the one it is judged by, and the client is authorized to use both |
| RoutePreview.NoneCounted | src/shared/route-preview.ts:57-95 | No account of an eligible source counts if and only if every schedulable supporting one is denied something |
| RoutePreview.CountedExactly | src/shared/source-eligibility.ts:66-168 | Counted are exactly the accounts of the source that rest not, have room, lack nothing for the model and are denied nothing; and only those that have proved all capabilities when there is one |
| RoutePreview.SchedulableExactly | src/shared/source-eligibility.ts:34-72 | Schedulable are exactly active accounts and cooled ones whose known time is over, with fewer requests in flight than a whole number within the limit, or than one |
| RoutePreview.SupportsExactly | src/shared/source-eligibility.ts:121-150 | An account lacks a model exactly without a provider, off a list of the pool or the account, or refreshed without it while no relay shows it |

## Left out

- JsonGrammar.PrintParse: numbers keep their token, so rounding to doubles, the printing of -0 and of values that overflow are not modelled.
- JSON objects keep their keys in writing order; JavaScript moves integer-like keys first.
- Error texts, redaction and localisation: an error is only told apart by where it is raised.
- `inspect`, `validateConnectionTarget` and the platform paths of claude-vscode-config.ts: a target is a pair of nonempty strings.
- `runExclusive` and `serialize`: operations of one object are modelled one after another, which is what they establish.
- Files: a single file is replaced as a whole or not at all; the atomic writer is not part of this model.
- ToolNames.UniqueToolName: starts from the cleaned base name; the replacement of unusual characters is not modelled.
- EventStream.ResponseAgreement: search calls carry their raw arguments; parsing them into an object is not modelled. Usage, obfuscation and the other envelope fields are left out, and the final text is taken as already trimmed.
- ToolContinuation.ConsumedOnce: call ids of new calls are fresh; the size limits, expiry timers and dispose are modelled as deleting any entries at any time.
- ToolContinuation.ContinuationSound: prompts, images, token estimates and the constraint message of a turn are left out; input items that do not matter for continuing carry no content.
- ProcessRegistry.SignalSafety: times are whole milliseconds; the adapter's own comparison before a signal, and entries that are registered, unregistered or pruned while a close of theirs is under way, are not modelled.
- DesktopPlans.WantedMatches: the validation of model lists and the organisation policy check are inputs.
- CliRestore.RestoreSucceeds: `mergeRepairResults`, `getSnapshot` and the report of external sessions are left out.
- LifecycleCoordinator.CoordinatorRuns: the clock is monotone and timers are never early.
- TokenCost.Accumulate: the price of a model is part of the log; price tables and model names are left out, costs are exact reals, and window lengths are whole seconds. The sorted list of unknown models is a set.
- VersionOrder.StrictWeakOrder: `localeCompare` is any total order on words; a core part beyond the safe integers does not parse, as in the source, and prerelease numbers are exact.
- TokenEstimate.EstimateTokens: the serialization of the value is an input.
- RoutePreview.PreviewRoute: the model maps of a route are resolved before; the texts of issues and the names shown with the result are left out. What is known of a provider's capabilities is a function.
- RouteSources.IsTopologyValid: the evidence for Web WM accounts and for the Kiro tool test is one flag each.
- `listRouteSources`, `enumerateRouteSourceModels` and the capacity summary of route-sources.ts.
- The page script that runs inside ChatGPT: its results and stream events are arbitrary.
- Windows, IPC, sessions, image viewing, HTML patching and the browser import queue.
