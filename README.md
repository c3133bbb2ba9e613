# Review assistant: conversation state and CSV export, in Dafny

This project models three parts of the review-assistant Zotero plugin:

- **The conversation state engine** behind the `useMessages` hook.
  - A conversation is an ordered list of messages. A bot message owns an ordered list of steps. A MESSAGE_STEP owns, in its `message` object, an ordered list of actions.
  - `messagesReducer` handles nine commands. Module `Messages` models it as the pure function `Reduce`, and `MessagesProperties` proves properties over single commands and command sequences.
  - The hook is the class `MessagesController.Conversation`. Its fields are the reducer state and the conversation id the load effect is keyed on. Its methods dispatch the commands. `findLastUserMessage` is a loop proved against a specification function.
- **The custom item-tree columns** of `root.ts` (module `ItemColumns`). Each column reads one line of an item's `extra` field: the shared `createDataProvider` and the Answer column's own provider.
- **The CSV export** of `ExportButton.tsx`:
  - `extractYear`, `parseJSONData`, `flattenObject`, `getUniqueFieldNames`, `getStandardFieldsForItems` and `combineFields` (modules `CsvFlatten` and `CsvExport`);
  - `prepareCSVData` and `exportJSONDataToCSV` (module `CsvWriter`);
  - what the written file means when read back as quoted CSV records (module `CsvProperties`).

Supporting modules:

- `Wrappers` holds `Option`.
- `JsonValue` holds JSON values as JavaScript holds them after `JSON.parse`: a number is kept as the text `String(n)` gives, and an object is its member list in enumeration order.
- `JsString` holds `join`, `split`, `startsWith` and `trim` with their round-trip lemmas.

The reducer in `Messages` is the corrected one. Where the source as written loses data, `MessagesAsWritten` models the code as it stands, and "## Findings" below lists each discrepancy.

Two behaviours of the code that are easy to misread:

- `getMesssage` (useMessages.ts:224-229) on an id that is not in the list indexes from `findIndex`'s -1, so `offset` 1 yields the first message rather than nothing (`Messages.MessageAt`, `MessagesProperties.MessageAtUnknownId`).
- When the bound conversation id changes, the effect at useMessages.ts:220-222 only dispatches LOAD_MESSAGES. That replaces the messages and keeps the state's `id` and `metadata` (`MessagesController.Conversation.Rerender`).

## Model

| member | source | states |
|---|---|---|
| Messages.IndexOf | src/hooks/useMessages.ts:85-87 | `findIndex` by id: the first position holding the id, and -1 exactly when no message holds it |
| Messages.Overlay | src/hooks/useMessages.ts:90-93 | object spread `{...base, ...patch}`: the keys are the union, the patch wins, every other field is kept |
| Messages.AppendUserMessage | src/hooks/useMessages.ts:65-70 | ADD_USER_MESSAGE: the new user message goes last and every earlier message keeps its place |
| Messages.AppendBotMessage | src/hooks/useMessages.ts:72-82 | ADD_BOT_MESSAGE: the bot message goes last; missing `steps` become the empty list, given steps are kept |
| Messages.MergeMessage | src/hooks/useMessages.ts:90-93 | merging a patch keeps the message's id, timestamp, kind and steps and overlays its fields |
| Messages.MergeUserMessage | src/hooks/useMessages.ts:84-99 | UPDATE_USER_MESSAGE, corrected: same length; only the message with the id is merged; every message before and after it is unchanged; an absent id changes nothing |
| Messages.AppendBotStep | src/hooks/useMessages.ts:101-111 | ADD_BOT_STEP: the step goes last in every bot message with the id; user messages and other bot messages are untouched; no target means no change |
| Messages.OverlayStep | src/hooks/useMessages.ts:122-127 | `{...step, ...updates}` on a MESSAGE_STEP keeps id, timestamp and actions, replaces `message` when the patch names it, overlays the fields |
| Messages.MergeBotStep | src/hooks/useMessages.ts:114-132 | UPDATE_BOT_STEP: only MESSAGE_STEPs with the step id inside bot messages with the message id are patched; no step count changes |
| Messages.PushAction | src/hooks/useMessages.ts:145-150 | corrected ADD_BOT_ACTION on one step: the step's `message.actions` becomes the old list plus the action; content, id and other fields are kept; other step kinds are unchanged |
| Messages.AppendBotAction | src/hooks/useMessages.ts:134-157 | ADD_BOT_ACTION, corrected: the action lands at the end of the target step's action list; the target message keeps its id, timestamp and fields; every other step and message is unchanged |
| Messages.MergeActions | src/hooks/useMessages.ts:172-176 | every action with the action id has its fields overlaid with the patch; ids, timestamps and kinds stay; other actions are unchanged |
| Messages.PatchStepActions | src/hooks/useMessages.ts:170-177 | a MESSAGE_STEP's `message.actions` is patched; a step without an action list, or of another kind, is unchanged |
| Messages.MergeBotAction | src/hooks/useMessages.ts:159-184 | UPDATE_BOT_ACTION, corrected: the patch lands only on the addressed action of the addressed step of the addressed bot message, which keeps its id, timestamp and fields |
| Messages.LoadedMessages | src/hooks/useMessages.ts:186-192 | LOAD_MESSAGES: the stored list for the conversation, the empty list when the store has none |
| Messages.Reduce | src/hooks/useMessages.ts:58-205 | every command keeps the state's id and metadata; CLEAR empties and LOAD replaces the messages; additions grow the list by one at the end; every other command keeps its length |
| Messages.MessageAt | src/hooks/useMessages.ts:224-229 | `getMesssage`: a message exactly when `findIndex + offset` is in range, and it is the message at that position |
| Messages.LastUserBelow | src/hooks/useMessages.ts:335-339 | the greatest position below k holding a user message, with no user message between it and k |
| Messages.LastUserMessageBefore | src/hooks/useMessages.ts:329-342 | nothing for an absent id; otherwise the nearest user message strictly before the message, or nothing when none precedes it |
| MessagesProperties.IndexOfSameIds | src/hooks/useMessages.ts:85-87 | two lists with the same ids position by position give the same `findIndex` |
| MessagesProperties.InPlaceCommandsKeepIdentity | src/hooks/useMessages.ts:84-184 | the five update and nested-add commands keep every message's position, id and kind |
| MessagesProperties.ReduceKeepsIdsUnique | src/hooks/useMessages.ts:58-205 | unique message ids stay unique under every command, given fresh ids for additions and a unique stored list for loads |
| MessagesProperties.AppendBotStepCount | src/hooks/useMessages.ts:101-111 | ADD_BOT_STEP adds one step per bot message it reaches and no other step |
| MessagesProperties.UniqueTargetCount | src/hooks/useMessages.ts:101-111 | with unique ids, a message id reaches exactly one bot message if it names one, otherwise none |
| MessagesProperties.AddBotStepGrowsByOne | src/hooks/useMessages.ts:101-111 | with unique ids, ADD_BOT_STEP grows the total step count by one when the target is a bot message, otherwise by nothing |
| MessagesProperties.MissingStepIsNoOp | src/hooks/useMessages.ts:114-184 | UPDATE_BOT_STEP, ADD_BOT_ACTION and UPDATE_BOT_ACTION addressed to a missing message or step change nothing |
| MessagesProperties.MissingActionIsNoOp | src/hooks/useMessages.ts:159-184 | UPDATE_BOT_ACTION with an action id no action carries changes nothing |
| MessagesProperties.MergeUserMessageIdempotent | src/hooks/useMessages.ts:84-99 | applying the same user-message update twice equals applying it once |
| MessagesProperties.AddedAll | src/hooks/useMessages.ts:65-82 | the messages a run of additions appends: one per command, each the message that command builds |
| MessagesProperties.AdditionsKeepDispatchOrder | src/hooks/useMessages.ts:65-82 | any run of message additions appends exactly their messages, in dispatch order, after the existing ones, keeping id and metadata |
| MessagesProperties.AdditionAppends | src/hooks/useMessages.ts:65-82 | one addition appends exactly its message and keeps id and metadata |
| MessagesProperties.NestedUpdateScenario | src/hooks/useMessages.ts:72-184 | add a bot message, a step, an action labelled "y", relabel it "z": one message, one step, one action labelled "z" |
| MessagesProperties.ActionAddedToOnlyStep | src/hooks/useMessages.ts:134-157 | on one bot message with one MESSAGE_STEP, ADD_BOT_ACTION pushes the action onto that step |
| MessagesProperties.ActionUpdatedInOnlyStep | src/hooks/useMessages.ts:159-184 | on one bot message with one MESSAGE_STEP, UPDATE_BOT_ACTION patches that step's actions |
| MessagesProperties.LastUserMessageExample | src/hooks/useMessages.ts:329-342 | in [U1, B1, U2, B2], B2 finds U2, while U1 and an unknown id find nothing |
| MessagesProperties.MessageAtUnknownId | src/hooks/useMessages.ts:224-229 | for an absent id, offset k yields the message at position k - 1 when that is in range |
| MessagesProperties.MessageAtOwnId | src/hooks/useMessages.ts:224-229 | with no offset, a present id yields a message with that id; with unique ids, exactly that message |
| MessagesAsWritten.UpdateUserMessageAsWritten | src/hooks/useMessages.ts:84-99 | as written: the messages before the target, then the merged target, and nothing after it; an absent id drops the last message and appends the bare patch |
| MessagesAsWritten.AsEntries | src/hooks/useMessages.ts:84-99 | the corrected list seen as the as-written entry type, element by element |
| MessagesAsWritten.UpdateUserMessageTruncates | src/hooks/useMessages.ts:88-94 | as written, an update loses exactly the messages after the target; it agrees with the corrected update only when the target is last, and differs for an absent id |
| MessagesAsWritten.UpdateFirstOfTwoDropsSecond | src/hooks/useMessages.ts:88-94 | updating the first of two messages leaves one message as written and two when corrected |
| MessagesAsWritten.PushActionAsWritten | src/hooks/useMessages.ts:145-150 | as written: the step-level `actions` becomes `message.actions` plus the action, while the step's own action list is unchanged |
| MessagesAsWritten.AppendBotActionAsWritten | src/hooks/useMessages.ts:134-157 | as written, ADD_BOT_ACTION leaves every step's own action list unchanged |
| MessagesAsWritten.SecondActionReplacesFirst | src/hooks/useMessages.ts:145-150 | two additions as written keep only the second action, in the step-level list; corrected, the action list holds both in order |
| MessagesAsWritten.PatchStepActionsAsWritten | src/hooks/useMessages.ts:170-177 | as written: throws on a step without an action list; otherwise keeps the step's `message` and writes the mapped list to the step-level `actions` |
| MessagesAsWritten.MergeBotActionAsWritten | src/hooks/useMessages.ts:159-184 | as written: nothing exactly when some addressed step throws; otherwise same length, non-target messages unchanged |
| MessagesAsWritten.UpdateActionIgnoresCommand | src/hooks/useMessages.ts:172-176 | an action whose payload has no `actionId` of its own is left as it was, where the corrected update overlays the command's patch |
| MessagesAsWritten.NestedScenarioThrowsAsWritten | src/hooks/useMessages.ts:134-184 | as written, adding a bot message, a step and an action and then updating that action throws |
| MessagesController.Conversation.constructor | src/hooks/useMessages.ts:207-217 | the first render: state is the given id, empty metadata and no messages; the bound id is the given id |
| MessagesController.Conversation.Dispatch | src/hooks/useMessages.ts:209-215 | `dispatch`: the state becomes the reducer's result on the old state |
| MessagesController.Conversation.Mount | src/hooks/useMessages.ts:220-222 | the mount effect replaces the messages with the stored ones of the bound id and keeps id and metadata |
| MessagesController.Conversation.Rerender | src/hooks/useMessages.ts:220-222 | a render with the same id changes nothing; with a new id, only the messages are reloaded from the store; the state's id stays the first render's |
| MessagesController.Conversation.GetMessage | src/hooks/useMessages.ts:224-229 | a message exactly when `findIndex + offset` is a position of the current list, and it is the message there |
| MessagesController.Conversation.AddUserMessage | src/hooks/useMessages.ts:231-241 | appends a user message with the generated id and timestamp and returns that id |
| MessagesController.Conversation.AddBotMessage | src/hooks/useMessages.ts:243-253 | appends a bot message with the generated id and timestamp and returns that id |
| MessagesController.Conversation.UpdateUserMessage | src/hooks/useMessages.ts:255-265 | the messages become the corrected merge of the patch into the addressed message |
| MessagesController.Conversation.AddBotStep | src/hooks/useMessages.ts:267-281 | the step, with the generated id and timestamp, is appended to the addressed bot message; the id is returned |
| MessagesController.Conversation.UpdateBotStepAsWritten | src/hooks/useMessages.ts:283-293 | `updateBotStep` as written only logs: state and bound id are unchanged |
| MessagesController.Conversation.UpdateBotStep | src/hooks/useMessages.ts:283-293 | `updateBotStep` as intended: the messages become the UPDATE_BOT_STEP result |
| MessagesController.Conversation.AddBotAction | src/hooks/useMessages.ts:295-311 | the action, with the generated id and timestamp, goes last in the addressed step's action list; the id is returned |
| MessagesController.Conversation.UpdateBotAction | src/hooks/useMessages.ts:313-323 | the messages become the corrected UPDATE_BOT_ACTION result |
| MessagesController.Conversation.ClearMessages | src/hooks/useMessages.ts:325-327 | the messages become empty; id and metadata are kept |
| MessagesController.Conversation.FindLastUserMessage | src/hooks/useMessages.ts:329-342 | the downward scan returns exactly the nearest user message before the addressed one, or nothing |
| MessagesController.UpdateBotStepIsLost | src/hooks/useMessages.ts:283-293 | on a state holding the addressed step, the UPDATE_BOT_STEP command `updateBotStep` should dispatch does change the messages |
| ItemColumns.FirstLineWith | src/views/root.ts:14 | `find(line => line.startsWith(prefix))`: the first line with the prefix, with no earlier line having it, or -1 when none has |
| ItemColumns.FieldValue | src/views/root.ts:11-17 | `createDataProvider`: a non-empty value has no white space at its ends and comes from a line starting with `field:` |
| ItemColumns.AnswerValue | src/views/root.ts:98-100 | the Answer provider: fails exactly when `extra` is absent; on the first line starting with `Answer:` it shows the text between the first `": "` and the next one (or the line's end), and "" when there is no such line or no `": "`; a non-empty value never contains `": "` |
| ItemColumns.AnswerOtherLineSkipped | src/views/root.ts:98-100 | a first line without the `Answer:` prefix is skipped: the Answer column shows what the remaining lines give |
| ItemColumns.AnswerStopsAtNextSeparator | src/views/root.ts:98-100 | `Answer: a: b` shows "a": only the piece after the first `": "` is kept |
| ItemColumns.AnswerAfterFirstSeparator | src/views/root.ts:98-100 | `Answer:x: y` shows "y": the first `": "` may come after the prefix |
| ItemColumns.EmptyExtraShowsNothing | src/views/root.ts:13-15 | an absent or empty `extra` shows "" in every text column |
| ItemColumns.FirstMatchingLineWins | src/views/root.ts:14-15 | a first line starting with `field:` decides the value, whatever follows it |
| ItemColumns.OtherLineSkipped | src/views/root.ts:14-15 | a first line without the prefix is skipped: the value is that of the remaining lines |
| ItemColumns.WrittenFieldReadBack | src/views/root.ts:11-17 | a line written `field: value` reads back as the value, trimmed |
| ItemColumns.FieldWithoutSpace | src/views/root.ts:11-17 | a line written `field:value`, without a space, reads back as the value when it has no white space at its ends |
| ItemColumns.SingleMatchingLine | src/views/root.ts:14-15 | a single line with the prefix shows the rest of it, trimmed |
| ItemColumns.WrittenAnswerReadBack | src/views/root.ts:98-100 | a line `Answer: value` reads back as the value, untrimmed, when the value is non-empty and holds no newline and no `": "` |
| ItemColumns.AnswerNeedsColonSpace | src/views/root.ts:98-100 | `Answer:value` without the space shows "" in the Answer column, while a text column keyed `Answer` shows the value |
| JsString.IndexOfFrom | src/views/root.ts:99 | `indexOf`: the first occurrence at or after the start, with none before it, or -1 |
| JsString.Split | src/views/root.ts:14 | `split` with a non-empty separator: at least one piece, and no piece holds the separator |
| JsString.IndexOfSuffix | src/views/root.ts:99 | searching a suffix of a string finds the same occurrence as searching the string, shifted by where the suffix starts |
| JsString.SplitSecond | src/views/root.ts:99 | `split(sep)[1]`: with no separator the split is the whole string; otherwise the second piece is the text between the first separator and the next one, or the end |
| JsString.SplitColonSpace | src/views/root.ts:99 | `split(': ')` of a string whose part before the first `": "` holds no space: that part is the first piece and the split goes on after the separator |
| JsString.JoinSplit | src/views/root.ts:14 | joining the pieces of a split with the separator gives back the string |
| JsString.SplitJoin | src/views/components/buttons/ExportButton.tsx:247-250 | splitting pieces joined by a one-character separator that none holds gives back the pieces |
| JsString.LeadingSpace | src/views/root.ts:15 | the leading white space `trim` removes, up to the first non-space |
| JsString.TrimIdempotent | src/views/root.ts:15 | `trim` applied twice equals `trim` applied once |
| CsvExport.FirstYearFrom | src/views/components/buttons/ExportButton.tsx:15-19 | the leftmost match of `\b\d{4}\b` at or after a position, with no match before it, or -1 |
| CsvExport.ExtractYear | src/views/components/buttons/ExportButton.tsx:15-19 | "N/A" exactly when the date has no stand-alone four-digit group; otherwise the leftmost such group |
| CsvExport.ExtractYearOfIsoDate | src/views/components/buttons/ExportButton.tsx:15-19 | "2021-05-03" yields "2021" |
| CsvExport.ExtractYearInWords | src/views/components/buttons/ExportButton.tsx:15-19 | "Spring 1999" yields "1999" |
| CsvExport.ExtractYearNeedsBoundary | src/views/components/buttons/ExportButton.tsx:15-19 | "20210503" yields "N/A": a digit run longer than four has no word boundary inside |
| CsvExport.ParseJsonData | src/views/components/buttons/ExportButton.tsx:68-89 | no answer or an empty one gives no items; a parsed array gives its elements; a parsed object whose `articles` is an array gives that array; a parse error or any other parsed value gives no items |
| CsvExport.AddKeysLaws | src/views/components/buttons/ExportButton.tsx:140-153 | adding keys: exactly the old names plus the new non-standard keys, without duplicates, the old names first and in order |
| CsvExport.UniqueFieldNamesLaws | src/views/components/buttons/ExportButton.tsx:140-153 | the custom names are exactly the non-standard flattened keys of some item, each once |
| CsvExport.UniqueFieldNamesGrow | src/views/components/buttons/ExportButton.tsx:140-153 | one more item keeps the names found so far, in their order |
| CsvExport.GetUniqueFieldNames | src/views/components/buttons/ExportButton.tsx:140-153 | the nested loops compute exactly the insertion-ordered set of custom names |
| CsvExport.StandardFieldsOf | src/views/components/buttons/ExportButton.tsx:161-170 | the six standard fields: authors as a list, the extracted year, "N/A" for an empty publication title or DOI |
| CsvExport.GetStandardFieldsForItems | src/views/components/buttons/ExportButton.tsx:155-178 | one entry per library item, paired with the JSON item at the same position (`undefined` past the end) |
| CsvExport.CellFor | src/views/components/buttons/ExportButton.tsx:186-190 | `value \|\| 'N/A'`: a truthy value is kept, a string as itself; a falsy or missing value gives "N/A" |
| CsvExport.GetScalar | src/views/components/buttons/ExportButton.tsx:186-189 | a value found in a flattened dict is never an array or object |
| CsvExport.CombinedOfLaws | src/views/components/buttons/ExportButton.tsx:180-194 | the combined record holds the standard fields and the custom names; each custom name maps to its flattened value or "N/A"; other standard fields are unchanged |
| CsvExport.CombineRecord | src/views/components/buttons/ExportButton.tsx:183-191 | the loop over custom names builds exactly the combined record |
| CsvExport.CombineFields | src/views/components/buttons/ExportButton.tsx:180-194 | one combined record per item, built from its standard fields and its flattened JSON item |
| CsvFlatten.KeyIndex | src/views/components/buttons/ExportButton.tsx:103-133 | the first property with the key, or -1 when none has it |
| CsvFlatten.IndexSlot | src/views/components/buttons/ExportButton.tsx:103-133 | where a new array-index key goes: after exactly the index keys numerically below it |
| CsvFlatten.DigitsLessTotal | src/views/components/buttons/ExportButton.tsx:92 | two distinct digit strings of equal length are ordered one way or the other |
| CsvFlatten.DigitsLessTransitive | src/views/components/buttons/ExportButton.tsx:92 | numeric order of digit strings is transitive |
| CsvFlatten.IndexLessTotal | src/views/components/buttons/ExportButton.tsx:92 | numeric order of index keys is total |
| CsvFlatten.IndexLessTransitive | src/views/components/buttons/ExportButton.tsx:92 | numeric order of index keys is transitive |
| CsvFlatten.PutLaws | src/views/components/buttons/ExportButton.tsx:103-133 | after `res[k] = v`, k reads v and every other key reads as before; keys stay distinct and in JavaScript's enumeration order |
| CsvFlatten.ReplaceKeepsKeys | src/views/components/buttons/ExportButton.tsx:103-133 | overwriting an existing property keeps the keys distinct and ordered |
| CsvFlatten.InsertLaws | src/views/components/buttons/ExportButton.tsx:103-133 | inserting a new key at its place: it reads its value, others read as before, keys stay distinct and ordered |
| CsvFlatten.PutMembers | src/views/components/buttons/ExportButton.tsx:103-133 | `res[k] = v` brings in no member other than `k: v` |
| CsvFlatten.InsertOrdered | src/views/components/buttons/ExportButton.tsx:103-133 | inserting at the slot keeps index keys first and in ascending order |
| CsvFlatten.EntryKey | src/views/components/buttons/ExportButton.tsx:92 | a property name of an array or string is its index written in decimal |
| CsvFlatten.EntryValue | src/views/components/buttons/ExportButton.tsx:94 | `ob[key]`: an object's member value, an array's element, a string's character |
| CsvFlatten.FlattenObject | src/views/components/buttons/ExportButton.tsx:91-138 | the recursive loop yields exactly the flattening of the object under the prefix into the accumulator |
| CsvFlatten.FormatArray | src/views/components/buttons/ExportButton.tsx:110-131 | the array branch computes exactly the array's text |
| CsvFlatten.FlattenFromWellFormed | src/views/components/buttons/ExportButton.tsx:91-138 | flattening keeps the accumulator's keys distinct and ordered and stores only scalars |
| CsvFlatten.FlattenWellFormed | src/views/components/buttons/ExportButton.tsx:91-138 | every flattened item has distinct ordered keys and only primitive or `null` values |
| CsvFlatten.FlattenFromKeys | src/views/components/buttons/ExportButton.tsx:91-138 | flattening never drops a key, and every key it adds is the prefix followed by a dot and a path |
| CsvFlatten.PutKeys | src/views/components/buttons/ExportButton.tsx:95-133 | storing under `prefix.key` keeps every key and adds only keys under the prefix |
| CsvFlatten.FlattenEntryShallow | src/views/components/buttons/ExportButton.tsx:95-133 | on a property that is not a non-leaf object, the loop body stores the property's flat value (a leaf object as "k: v" text, an array as its "; "-joined element texts, anything else as it is) under the prefixed key and changes no other key |
| CsvFlatten.ShallowFlatten | src/views/components/buttons/ExportButton.tsx:91-135 | an object with distinct keys and no non-leaf object value flattens to exactly its own keys, each holding its flat value |
| CsvFlatten.FlatObjectUnchanged | src/views/components/buttons/ExportButton.tsx:91-138 | an object with primitive values only flattens to itself: same keys, values and order |
| CsvFlatten.NestedExample | src/views/components/buttons/ExportButton.tsx:100-108 | `{"a": {"b": {"c": 1}, "d": 2}}` flattens to `a.b: "c: 1"` and `a.d: 2` |
| CsvFlatten.ArrayExample | src/views/components/buttons/ExportButton.tsx:110-131 | `{"tags": ["x", null, 3]}` flattens to `tags: "x; ; 3"` |
| CsvFlatten.IndexKeysFirstExample | src/views/components/buttons/ExportButton.tsx:91-138 | flattening `[1, {"a": {"b": 2}}, 3]` enumerates the keys "0", "2", "1.a" |
| CsvWriter.Headers | src/views/components/buttons/ExportButton.tsx:199-207 | nine fixed headers starting with "Key", then the custom names in order |
| CsvWriter.Escape | src/views/components/buttons/ExportButton.tsx:242 | doubling quotes never shortens a value and introduces no new character |
| CsvWriter.Lookup | src/views/components/buttons/ExportButton.tsx:214-238 | `item[header] \|\| 'N/A'`: the value's text when present and truthy, otherwise "N/A" |
| CsvWriter.AuthorAt | src/views/components/buttons/ExportButton.tsx:217-221 | `authors[idx] \|\| 'N/A'`: the idx-th name when present and non-empty, otherwise "N/A" |
| CsvWriter.OtherAuthors | src/views/components/buttons/ExportButton.tsx:222-228 | names beyond the third joined by "; ", "N/A" for three or fewer; throws exactly for a string longer than three characters (Unicode scalar values; see "## Left out") |
| CsvWriter.FieldFor | src/views/components/buttons/ExportButton.tsx:213-245 | the Authors header is exactly the one skipped; only Other Authors can throw; every other non-author header shows its lookup |
| CsvWriter.RowsText | src/views/components/buttons/ExportButton.tsx:212-248 | one row per record, each that record's row; failure only when some record's row throws |
| CsvWriter.BuildRow | src/views/components/buttons/ExportButton.tsx:212-248 | the loop over headers builds exactly the record's row, or fails where the source throws |
| CsvWriter.WriteRows | src/views/components/buttons/ExportButton.tsx:212-248 | the loop over records builds exactly all rows, or fails at the first that throws |
| CsvWriter.PrepareCsvData | src/views/components/buttons/ExportButton.tsx:196-251 | exactly the header line and the rows joined by newlines, or failure |
| CsvWriter.RowTextsThrow | src/views/components/buttons/ExportButton.tsx:222-228 | a header that throws makes its row throw |
| CsvWriter.CombinedItems | src/views/components/buttons/ExportButton.tsx:283-288 | one combined record per selected item, paired with the JSON item at the same position |
| CsvWriter.ExportJsonDataToCsv | src/views/components/buttons/ExportButton.tsx:265-295 | the export ends exactly as the specification of parse, count check, naming, combining and writing says |
| CsvProperties.ReadEscaped | src/views/components/buttons/ExportButton.tsx:242 | an escaped value followed by a closing quote reads back as the value |
| CsvProperties.RecordReadBack | src/views/components/buttons/ExportButton.tsx:242-247 | quoting values and joining them with commas is undone by a quoted-field reader |
| CsvProperties.QuotedFieldThen | src/views/components/buttons/ExportButton.tsx:242-247 | a quoted field is read back, and reading continues after the following comma |
| CsvProperties.RowTextsAligned | src/views/components/buttons/ExportButton.tsx:212-247 | without an Authors header, a row has one value per header, each that header's field; it fails exactly when some header throws |
| CsvProperties.KeyRowNonEmpty | src/views/components/buttons/ExportButton.tsx:212-247 | a row whose first header is Key is never empty |
| CsvProperties.RowReadBack | src/views/components/buttons/ExportButton.tsx:212-248 | every row reads back as the values written for its record |
| CsvProperties.FixedHeadersPlain | src/views/components/buttons/ExportButton.tsx:199-207 | the fixed headers hold no comma, quote or line break |
| CsvProperties.HeadersWithout | src/views/components/buttons/ExportButton.tsx:199-207 | a character in no custom name is in no header |
| CsvProperties.HeaderLineReadBack | src/views/components/buttons/ExportButton.tsx:210 | the unquoted header line splits back into the headers when no custom name holds a comma |
| CsvProperties.CommaInNameShiftsHeader | src/views/components/buttons/ExportButton.tsx:210 | a custom name "a,b" adds a header column that no row has |
| CsvProperties.CommaSplitsName | src/views/components/buttons/ExportButton.tsx:210 | after comma-free headers, the name "a,b" splits into two columns |
| CsvProperties.JoinSingleLine | src/views/components/buttons/ExportButton.tsx:247 | joining single-line parts with a single-line separator gives one line |
| CsvProperties.QuoteSingleLine | src/views/components/buttons/ExportButton.tsx:242 | quoting adds no line break |
| CsvProperties.RowSingleLine | src/views/components/buttons/ExportButton.tsx:242-247 | a row of single-line values is one line |
| CsvProperties.LinesSingle | src/views/components/buttons/ExportButton.tsx:250 | with a one-line header line and single-line values, every output line is one line |
| CsvProperties.HeaderLineSingle | src/views/components/buttons/ExportButton.tsx:210 | the header line is one line when no custom name holds a line break |
| CsvProperties.RowLineSingle | src/views/components/buttons/ExportButton.tsx:242-248 | a record whose values are single-line gives a one-line row |
| CsvProperties.DocumentReadBack | src/views/components/buttons/ExportButton.tsx:196-251 | with no line break in names or values, the output is the header line and one line per record, each reading back as that record's values |
| CsvProperties.TextColumn | src/views/components/buttons/ExportButton.tsx:233-238 | a text column shows its string, or "N/A" when it is empty |
| CsvProperties.AuthorColumnsOfNames | src/views/components/buttons/ExportButton.tsx:217-228 | the first three author columns show the first three names or "N/A"; the fourth shows the rest joined by "; " |
| CsvProperties.StandardRecord | src/views/components/buttons/ExportButton.tsx:155-194 | without a clashing custom name, the combined record keeps the item's key, title, year, publication title, DOI and authors |
| CsvProperties.StandardColumns | src/views/components/buttons/ExportButton.tsx:155-240 | the standard columns of a row show the item's key, title, year, publication title, DOI and authors, "N/A" where empty |
| CsvProperties.FixedColumnValues | src/views/components/buttons/ExportButton.tsx:155-238 | the five fixed columns of a row show the item's fields, "N/A" where empty |
| CsvProperties.CustomColumn | src/views/components/buttons/ExportButton.tsx:180-238 | a custom column shows the flattened JSON value's text, or "N/A" when it is falsy or missing |
| CsvProperties.CustomRecordValue | src/views/components/buttons/ExportButton.tsx:180-194 | a custom name's entry is the cell of its flattened value |
| CsvProperties.TextRecordValue | src/views/components/buttons/ExportButton.tsx:186-190 | a custom name whose flattened value is a non-empty string holds that string |
| CsvProperties.CellColumn | src/views/components/buttons/ExportButton.tsx:186-238 | a column holding a scalar's cell shows the scalar's text, or "N/A" when it is falsy or missing |
| CsvProperties.ExportRefusals | src/views/components/buttons/ExportButton.tsx:266-278 | nothing to export exactly when no items are parsed; a mismatch exactly when the counts differ |
| CsvProperties.ExportWritten | src/views/components/buttons/ExportButton.tsx:265-295 | a written export covers as many items as are selected, and its text is the output of the combined records |
| CsvProperties.OutputStartsWithHeader | src/views/components/buttons/ExportButton.tsx:209-250 | the output starts with the header line |
| CsvProperties.AuthorsItemNames | src/views/components/buttons/ExportButton.tsx:140-153 | an item `{"Authors": "Jane Doe"}` names exactly the custom column "Authors" |
| CsvProperties.OneKeyNames | src/views/components/buttons/ExportButton.tsx:140-153 | a single item with one non-standard key names exactly that column |
| CsvProperties.AuthorsStringFails | src/views/components/buttons/ExportButton.tsx:217-228 | a record whose Authors value is a string longer than three characters makes the output fail |
| CsvProperties.AuthorsItemRecord | src/views/components/buttons/ExportButton.tsx:180-194 | the custom "Authors" string replaces the author list in the combined record |
| CsvProperties.AuthorsStringFailsExport | src/views/components/buttons/ExportButton.tsx:265-295 | exporting one item whose JSON holds `Authors: "Jane Doe"` fails |

## Left out

- React rendering, JSX components and UI plumbing (`NoteButton.tsx`, the QA view, `types.ts`) are not part of this model.
- Generated ids and timestamps become parameters of the controller methods; `useAssistant` is not modelled.
- The message store (`messageStore.loadMessages`) is not part of this model. It becomes a map fixed when the `Conversation` is built, and a conversation with no entry loads the empty list.
- `useEffect` timing is reduced to explicit `Mount` and `Rerender` calls; React's batching and re-render scheduling are not modelled.
- `console.log` calls are left out.
- `extractAuthors` (ExportButton.tsx:21-50) and the Zotero item getters are left out: a library item carries the values they return, author names included.
- `pickSaveLocation`, `exportToCSV`, the file picker and the file write are I/O and are left out; the export ends with the CSV text handed to the write.
- `JSON.parse` is a parameter returning `None` on a parse error. JavaScript number formatting is left out: a number is the text `String(n)` gives it.
- A string is a sequence of Unicode scalar values (`char`). JavaScript counts UTF-16 code units, so `length`, indexing and `for...in` differ for text outside the Basic Multilingual Plane (CsvWriter.OtherAuthors, CsvWriter.AuthorAt, CsvFlatten.EntryKey, CsvFlatten.EntryValue); such text is not modelled. For example, an `Authors` string of two emoji has JavaScript length 4 and makes the export throw, while the model counts 2 and writes "N/A".
- `toLowerCase` is modelled on ASCII letters only, which decides comparisons against the lower-case words "title", "author", "year" and "doi".
- Properties inherited from `Object.prototype` are not modelled.
- A thrown `TypeError` is modelled as `None` or `Failed`; the message text of the caught error is not modelled.
- CsvExport.CellFor: requires a scalar, so the `JSON.stringify` branch of `combineFields` is not modelled. `FlattenWellFormed` proves no flattened value is an array or object, so that branch is unreachable.
- Messages.MergeMessage, Messages.OverlayStep, Messages.MergeActions: a patch overlays content fields only and never changes the id, timestamp or kind of the message, step or action it lands on. In the source a patch is a `Partial` of the whole record (useMessages.ts:39, :52, :286, :317) spread over it (`{...step, ...updates}` at :125, `{...action, ...updates}` at :174), so a patch naming `id` or `timestamp` would overwrite them; in the model such a key lands among the content fields instead.
- CsvWriter.Headers: header names are written unquoted, as the source does. A custom name holding a comma shifts the header line against the rows; `CommaInNameShiftsHeader` shows this. It is left as the source has it, not listed as a finding.

## Findings

| source | as written | input that shows it | evidently intended | confidence | as-written member | corrected member |
|---|---|---|---|---|---|---|
| src/hooks/useMessages.ts:84-99 | UPDATE_USER_MESSAGE keeps `slice(0, idx)` and appends the merged message, dropping every later message; for an absent id, `slice(0, -1)` drops the last message and the bare patch is appended | messages [u1, u2], update u1: one message remains | merge the message in place, keep all others, and leave the list unchanged for an absent id | not executed | MessagesAsWritten.UpdateUserMessageAsWritten, MessagesAsWritten.UpdateUserMessageTruncates, MessagesAsWritten.UpdateFirstOfTwoDropsSecond | Messages.MergeUserMessage, MessagesProperties.MergeUserMessageIdempotent |
| src/hooks/useMessages.ts:134-157 | ADD_BOT_ACTION reads `step.message.actions` but writes the new list to `step.actions`, so the step's action list never grows and each addition replaces the previous one in `step.actions` | two additions a1, a2 to one step: `step.actions` holds only a2; `message.actions` holds neither | append the action to `step.message.actions` | not executed | MessagesAsWritten.PushActionAsWritten, MessagesAsWritten.AppendBotActionAsWritten, MessagesAsWritten.SecondActionReplacesFirst | Messages.PushAction, Messages.AppendBotAction |
| src/hooks/useMessages.ts:159-184 | UPDATE_BOT_ACTION's `map` parameter `action` shadows the command, so each action is compared with its own `payload.actionId` and patched with its own `payload.updates`; the command's id and patch are never read, and an absent action list or payload throws | add a bot message, a step and an action, then update that action: the update throws | patch the action whose id is the command's action id with the command's updates | not executed | MessagesAsWritten.MergeBotActionAsWritten, MessagesAsWritten.UpdateActionIgnoresCommand, MessagesAsWritten.NestedScenarioThrowsAsWritten | Messages.MergeBotAction, MessagesProperties.NestedUpdateScenario |
| src/hooks/useMessages.ts:283-293 | `updateBotStep` only logs its arguments; its dispatch is commented out | a bot message "m" with step "s", update "s" with a new field: the state is unchanged | dispatch UPDATE_BOT_STEP | not executed | MessagesController.Conversation.UpdateBotStepAsWritten, MessagesController.UpdateBotStepIsLost | MessagesController.Conversation.UpdateBotStep |
