# AntiHub playground conversation engine, in Dafny

This project models the client-side conversation engine of the AntiHub dashboard's
playground page, together with two dashboard helpers: the shared-pool quota table and
the summary cards. It proves properties of the model.

The model covers these parts:

- **The reasoning/answer split.** Every streamed chunk is appended to a buffer, and
  the whole buffer is split again. The reasoning is the text between the leftmost
  `<think>` and the nearest `</think>` after it. The answer is the buffer with that
  one span removed, then trimmed. The lazy regex is written out as a search for the
  two literal tags (`ThinkSplit`).
- **The message list.** The handlers give `setMessages` pure transformations: the
  chunk update, the edit and the delete (`Conversation`).
- **The request.** The prior messages are flattened into a transcript with one entry
  per version. The current user turn follows: plain text, or, with attachments, a
  parts list built by a loop over the files (`ChatRequest`).
- **The page state.** A `Session` class holds the page's state fields. Its methods
  are the handlers: load models, submit, send, error, complete, delete, and start,
  cancel or save an edit. A `StreamSession` class is one open stream, with its
  `fullContent` accumulator and its chunk callback (`Playground`).
- **Model names.** `getModelProvider` and `formatModelName`, and the selector entries
  built from the user's quota list (`ModelNames`).
- **The quota table.** The sort by remaining quota, written as an in-place insertion
  sort over an `array`, the display-name table, the icon choice, the reset-time label
  and the availability badge (`SharedPoolModels`).
- **The summary cards.** The available-model count, the 24-hour consumption window,
  the account figures and the zero guards on the two rates (`SectionCards`).

The remaining files hold support modules:

- `Wrappers` defines `Option`.
- `Seqs` defines a generic `filter` with its lemmas.
- `Text` holds the JavaScript string primitives the code relies on, restricted to
  ASCII: `trim`, `toLowerCase`, `toUpperCase`, `includes`, `startsWith`, `indexOf`,
  and the decimal rendering of a non-negative integer.

Some inputs become parameters, because the model has no clock or network:

- The four `Date.now()` readings `sendChatRequest` takes are a `Stamps` value. They
  are the user key, the user version id, the assistant version id and the assistant
  key, in call order.
- The reset-time difference is a `ResetTime` value.
- The consumption times are optional integers.
- The clock reading of the cards is `now`.
- Server responses are arguments: the quota list, the pool statistics and the stream
  chunks.

Stream callbacks are method calls made in sequence.

Three readings of the source decide the model:

- **Handler state updates are batched.** React applies one handler's state updates
  together, and `sendChatRequest` runs synchronously up to its first `await`. So
  `handleSubmit` ends with status `streaming` when a model is selected. With no model
  selected, it ends with status `submitted` and the message list unchanged.
- **The transcript uses the old message list.** It is built from `messages` as it was
  before the user and assistant messages were appended (lines 218 and 233, against
  line 237).
- **The first model is always selected.** The load effect runs once, on mount, so its
  `!model` test sees the initial empty selection. A non-empty quota list therefore
  always selects its first model.

## Model

| member | source | states |
|---|---|---|
| `ThinkSplit.FindSpan` | app/dashboard/playground/page.tsx:295 | the search for the lazy `<think>…</think>` match; `FindSpanCorrect` states what it reports |
| `ThinkSplit.Strip` | app/dashboard/playground/page.tsx:297 | the buffer with the first match removed, untrimmed (the `replace` call; `SplitBuffer` trims it); `SplitWithoutPair` and `SplitWithPair` state it |
| `ThinkSplit.SplitBuffer` | app/dashboard/playground/page.tsx:295-297 | the reasoning and the answer of one buffer; `SplitWithoutPair`, `SplitWithPair` and the `*StableUnderAppend` lemmas state them |
| `ThinkSplit.FindSpanCorrect` | app/dashboard/playground/page.tsx:295 | the tag search reports exactly the regex's match: the leftmost `<think>` and the nearest `</think>` starting at or after its end; it reports no match exactly when no such pair exists |
| `ThinkSplit.SplitWithoutPair` | app/dashboard/playground/page.tsx:295-297 | without a complete pair the reasoning is empty and the answer is the whole buffer trimmed, an unterminated `<think>` included |
| `ThinkSplit.SplitWithPair` | app/dashboard/playground/page.tsx:295-297 | with a first match at `i`, `j`, the reasoning is the text between the tags and the answer is the trimmed text before `i` followed by the text after the closing tag |
| `ThinkSplit.FirstMatchUnique` | app/dashboard/playground/page.tsx:295 | the leftmost-then-nearest match is unique |
| `ThinkSplit.SpanStableUnderAppend` | app/dashboard/playground/page.tsx:292-295 | once the buffer holds a match, appending a chunk leaves the match where it was |
| `ThinkSplit.ThinkingStableUnderAppend` | app/dashboard/playground/page.tsx:292-296 | once the buffer holds a complete pair, no later chunk changes the reasoning |
| `ThinkSplit.StripStableUnderAppend` | app/dashboard/playground/page.tsx:292-297 | once the buffer holds a complete pair, a later chunk only extends the untrimmed answer at its end |
| `ThinkSplit.SplitOfLeadingPair` | app/dashboard/playground/page.tsx:295-297 | a buffer that opens with `<think>r</think>` (with no `</think>` inside `r`) splits into `r` and the trimmed rest |
| `ThinkSplit.UnterminatedExample` | app/dashboard/playground/page.tsx:295-297 | the buffer `<think>ab` has no reasoning and shows `<think>ab` as its answer |
| `ThinkSplit.StreamedPairExample` | app/dashboard/playground/page.tsx:279-297 | the chunks `<think>ab` and `cd</think>answer text` end with reasoning `abcd` and answer `answer text` |
| `ThinkSplit.SecondPairExample` | app/dashboard/playground/page.tsx:295-297 | only the first pair is taken out; a second pair stays in the answer verbatim |
| `Conversation.StreamVersion` | app/dashboard/playground/page.tsx:304-308 | one version under the chunk update; `ApplyChunkOnly` states it |
| `Conversation.StreamMessage` | app/dashboard/playground/page.tsx:300-311 | one message under the chunk update; `ApplyChunkOnly`, `ApplyChunkOtherMessage` and `StreamMessageTwice` state it |
| `Conversation.HasVersion` | app/dashboard/playground/page.tsx:301 | the `versions.some(v => v.id === id)` test; `ApplyChunkOnly` and `ApplyChunkOtherMessage` state the update on each side of it |
| `Conversation.ApplyChunk` | app/dashboard/playground/page.tsx:299-313 | the chunk update keeps the number of messages |
| `Conversation.ApplyChunkOnly` | app/dashboard/playground/page.tsx:299-313 | keys, roles, attachments, version count and version ids stay; the version with the streaming id gets the split's content and thinking; every other version is unchanged |
| `Conversation.ApplyChunkOtherMessage` | app/dashboard/playground/page.tsx:300-311 | a message without the streamed version is returned unchanged |
| `Conversation.ApplyChunkAbsent` | app/dashboard/playground/page.tsx:299-313 | when no version carries the id, a chunk changes nothing |
| `Conversation.StreamMessageTwice` | app/dashboard/playground/page.tsx:300-311 | updating a message twice is updating it with the second split |
| `Conversation.ApplyChunkLastWins` | app/dashboard/playground/page.tsx:299-313 | two chunk updates in a row leave exactly what the second would leave on its own |
| `Conversation.ApplyChunkAppend` | app/dashboard/playground/page.tsx:299-313 | the chunk update works message by message, over any split of the list |
| `Conversation.EditedVersion` | app/dashboard/playground/page.tsx:388-392 | one version under the edit; `EditVersionOnly` states it |
| `Conversation.EditedMessage` | app/dashboard/playground/page.tsx:384-396 | one message under the edit; `EditVersionOnly` states it |
| `Conversation.EditVersion` | app/dashboard/playground/page.tsx:383-397 | the edit keeps the number of messages |
| `Conversation.EditVersionOnly` | app/dashboard/playground/page.tsx:383-397 | only versions with the given id inside messages with the given key get the new content; ids, thinking, keys, roles, attachments and order stay |
| `Conversation.EditVersionAbsent` | app/dashboard/playground/page.tsx:383-397 | editing a version that no message with the key has changes nothing |
| `Conversation.RemoveKey` | app/dashboard/playground/page.tsx:360 | the delete as a `filter` on the key; `RemoveKeyMembers`, `RemoveKeyAppend`, `RemoveKeyAbsent` and `RemoveKeyIdempotent` state it |
| `Conversation.RemoveKeyMembers` | app/dashboard/playground/page.tsx:360 | a message survives the delete exactly when it was there and has another key |
| `Conversation.RemoveKeyAppend` | app/dashboard/playground/page.tsx:360 | the delete keeps the order of what it keeps, over any split of the list |
| `Conversation.RemoveKeyAbsent` | app/dashboard/playground/page.tsx:360 | deleting a key no message has changes nothing |
| `Conversation.RemoveKeyIdempotent` | app/dashboard/playground/page.tsx:360 | deleting twice is deleting once |
| `Conversation.ChunkAfterDelete` | app/dashboard/playground/page.tsx:299-313 | once the message holding the streamed version is deleted, later chunks change nothing |
| `ChatRequest.History` | app/dashboard/playground/page.tsx:237-242 | the flattened prior messages; `HistoryLength`, `HistoryAppend` and `HistoryAt` state it |
| `ChatRequest.VersionCount` | app/dashboard/playground/page.tsx:237-242 | the number of versions the history flattens; `HistoryLength` and `VersionCountAppend` state it |
| `ChatRequest.Entries` | app/dashboard/playground/page.tsx:238-241 | a message gives one transcript entry per version |
| `ChatRequest.HistoryLength` | app/dashboard/playground/page.tsx:237-242 | the flattened history has one entry per version of every prior message |
| `ChatRequest.HistoryAppend` | app/dashboard/playground/page.tsx:237-242 | flattening works piecewise over any split of the message list |
| `ChatRequest.VersionCountAppend` | app/dashboard/playground/page.tsx:237-242 | the version count adds up over any split of the message list |
| `ChatRequest.HistoryAt` | app/dashboard/playground/page.tsx:237-242 | version `k` of message `i` sits right after the versions of the earlier messages, with the message's role and the version's content and no thinking |
| `ChatRequest.ImageParts` | app/dashboard/playground/page.tsx:260-267 | every pushed part is an image part |
| `ChatRequest.ImagePartsSnoc` | app/dashboard/playground/page.tsx:260-267 | one more file adds its image part at the end when it is an image file, and nothing otherwise |
| `ChatRequest.ImagePartsFromImages` | app/dashboard/playground/page.tsx:260-267 | an image part for a url is present exactly when some image file has that url |
| `ChatRequest.IsImageFile` | app/dashboard/playground/page.tsx:261 | a `file` part whose media type starts with `image/`; `ImagePartsSnoc` and `ImagePartsFromImages` state which parts it selects |
| `ChatRequest.TextParts` | app/dashboard/playground/page.tsx:252-257 | the leading text part, only for non-empty text; `CurrentContentShape` states it |
| `ChatRequest.CurrentContent` | app/dashboard/playground/page.tsx:245-271 | the current turn, plain or a parts list; `CurrentContentShape` states its shape and `BuildCurrentContent` computes it with the loop |
| `ChatRequest.CurrentContentShape` | app/dashboard/playground/page.tsx:245-271 | without files the turn is the plain text; with files it is a parts list whose first part is text exactly when the text is non-empty, followed by the image parts |
| `ChatRequest.BuildCurrentContent` | app/dashboard/playground/page.tsx:245-271 | the loop over the files builds exactly the current-turn content |
| `ChatRequest.Transcript` | app/dashboard/playground/page.tsx:237-276 | the request's messages are the prior history followed by one user entry with the current content; their number is the prior version count plus one |
| `Playground.UserKey` | app/dashboard/playground/page.tsx:202 | the `user-` key of a clock reading; `UserAndAssistantKeysDiffer` and `KeysInjective` state that keys do not collide |
| `Playground.AssistantKey` | app/dashboard/playground/page.tsx:221-223 | the `assistant-` key of a clock reading; `UserAndAssistantKeysDiffer` and `KeysInjective` state that keys do not collide |
| `Playground.UserAndAssistantKeysDiffer` | app/dashboard/playground/page.tsx:202-223 | a user key never equals an assistant key |
| `Playground.KeysInjective` | app/dashboard/playground/page.tsx:202-223 | keys of one kind are equal only for equal clock readings |
| `Playground.OrDefault` | app/dashboard/playground/page.tsx:213-214 | a present, non-empty value is returned as is; a missing or empty one gives the fallback |
| `Playground.ToAttachment` | app/dashboard/playground/page.tsx:210-215 | the record one file is shown as; `AttachmentsFilled` states it |
| `Playground.Attachments` | app/dashboard/playground/page.tsx:210-215 | one attachment per file |
| `Playground.AttachmentsFilled` | app/dashboard/playground/page.tsx:210-215 | each attachment is the file's url, its media type or `application/octet-stream`, and its file name or `attachment`; neither field is empty |
| `Playground.UserMessage` | app/dashboard/playground/page.tsx:201-216 | the user message appended on send; `Session.SendChatRequest` and `SubmittedConversation` state where it goes |
| `Playground.AssistantMessage` | app/dashboard/playground/page.tsx:221-231 | the empty assistant message appended on send; `FirstChunkReachesAssistant` states that the stream writes into it |
| `Playground.NewMessagesDeletedApart` | app/dashboard/playground/page.tsx:201-233 | deleting the new user message keeps the new assistant message, and the other way round |
| `Playground.FirstChunkReachesAssistant` | app/dashboard/playground/page.tsx:299-313 | after the send, a chunk update rewrites exactly the new assistant version and leaves the prior messages and the user message as they were |
| `Playground.StreamSession.constructor` | app/dashboard/playground/page.tsx:279 | a stream starts with an empty buffer |
| `Playground.StreamSession.OnChunk` | app/dashboard/playground/page.tsx:291-313 | the chunk is appended to the buffer, and the message list becomes the chunk update with the split of the whole buffer |
| `Playground.Session.constructor` | app/dashboard/playground/page.tsx:120-137 | the page starts with no models, no selection, empty texts, status ready, no messages and no stream or edit |
| `Playground.Session.ModelsLoaded` | app/dashboard/playground/page.tsx:150-173 | the selector list is built from the quotas, and a non-empty list selects its first model |
| `Playground.Session.SelectModel` | app/dashboard/playground/page.tsx:807 | the chosen model becomes the selection |
| `Playground.Session.SetText` | app/dashboard/playground/page.tsx:755 | the prompt box holds what was typed |
| `Playground.Session.SendChatRequest` | app/dashboard/playground/page.tsx:187-276 | without a model nothing changes; otherwise the user and assistant messages are appended, the status is streaming, the streaming id is set, and the stream gets the transcript of the messages as they were before |
| `Playground.Session.Submit` | app/dashboard/playground/page.tsx:336-347 | an empty prompt without files changes nothing; otherwise the prompt box is cleared and the status is submitted, or streaming with the send's effects when a model is selected |
| `Playground.Session.StreamFailed` | app/dashboard/playground/page.tsx:315-331 | status error and no streaming id; messages stay |
| `Playground.Session.StreamCompleted` | app/dashboard/playground/page.tsx:321-324 | status ready and no streaming id; messages stay |
| `Playground.Session.DeleteMessage` | app/dashboard/playground/page.tsx:359-362 | the list loses exactly the messages with the key |
| `Playground.Session.StartEdit` | app/dashboard/playground/page.tsx:365-368 | the edit state holds the version id and its text |
| `Playground.Session.EditText` | app/dashboard/playground/page.tsx:668 | the edit box holds what was typed |
| `Playground.Session.CancelEdit` | app/dashboard/playground/page.tsx:371-374 | the edit state is cleared |
| `Playground.Session.SaveEdit` | app/dashboard/playground/page.tsx:377-402 | it saves exactly when the trimmed text is non-empty; a refused save changes nothing; a save writes the trimmed text into the matching version and clears the edit state |
| `Playground.TwoChunksIntoFreshTurn` | app/dashboard/playground/page.tsx:279-313 | after two chunks a fresh turn still has two messages, and the assistant's only version holds the split of the whole buffer |
| `Playground.StreamedPairConversation` | app/dashboard/playground/page.tsx:279-313 | the chunks `<think>ab` and `cd</think>answer text` leave the assistant version with thinking `abcd` and content `answer text` |
| `Playground.StreamedConversation` | app/dashboard/playground/page.tsx:187-347 | a whole turn on a fresh page (load, submit, two chunks, completion) ends ready with two messages, the assistant's holding the split of the whole buffer |
| `Playground.SubmittedConversation` | app/dashboard/playground/page.tsx:336-347 | loading models and submitting on a fresh page leaves the two new messages and an empty stream buffer |
| `Playground.StreamTwoChunks` | app/dashboard/playground/page.tsx:291-313 | two chunks streamed into the new turn leave the split of their concatenation in the assistant version |
| `ModelNames.GetModelProvider` | app/dashboard/playground/page.tsx:95-107 | the provider is that of the first keyword pair (gpt/openai, claude/anthropic, gemini/google, llama/meta) the lower-cased id contains, and unknown when none does |
| `ModelNames.ProviderIgnoresCase` | app/dashboard/playground/page.tsx:96 | the provider does not depend on ASCII case |
| `ModelNames.StripProviderPrefix` | app/dashboard/playground/page.tsx:111 | the result is a suffix of the id |
| `ModelNames.DigitRunDigits` | app/dashboard/playground/page.tsx:112 | the digit run at the front is made of digits |
| `ModelNames.DotVersions` | app/dashboard/playground/page.tsx:112 | the version rewrite keeps the length |
| `ModelNames.DotVersionsChangeAt` | app/dashboard/playground/page.tsx:112 | the only change the rewrite makes is a `-` between two digits becoming `.` |
| `ModelNames.DotVersionsAtVersion` | app/dashboard/playground/page.tsx:112 | `major-minor` at the front becomes `major.minor`, and the scan resumes after the second number |
| `ModelNames.DotVersionsAtFront` | app/dashboard/playground/page.tsx:112 | where `\d+-\d+` matches at the front, its dash becomes a dot and the global scan resumes after the second digit run |
| `ModelNames.DotVersionsStep` | app/dashboard/playground/page.tsx:112 | where no `\d+-\d+` matches at the front, one character is copied and the scan resumes at the next one, so a digit run not followed by `-digit` stays |
| `ModelNames.DotVersionsSkipsNonDigits` | app/dashboard/playground/page.tsx:112 | digit-free text in front is copied unchanged |
| `ModelNames.DotVersionsOneVersion` | app/dashboard/playground/page.tsx:112 | a name with one version number and no other digits has exactly that dash turned into a dot |
| `ModelNames.SplitSeparators` | app/dashboard/playground/page.tsx:113 | splitting yields at least one piece, and no piece contains `-` or `_` |
| `ModelNames.SplitSeparatorsWord` | app/dashboard/playground/page.tsx:113 | a separator-free word followed by a separator is split off as the first piece |
| `ModelNames.SplitSeparatorsSingle` | app/dashboard/playground/page.tsx:113 | a separator-free string is a single piece |
| `ModelNames.Capitalize` | app/dashboard/playground/page.tsx:115 | capitalising keeps the length and adds no separator |
| `ModelNames.JoinWordsNoSeparator` | app/dashboard/playground/page.tsx:116 | joining separator-free words with spaces gives a separator-free string |
| `ModelNames.JoinWords` | app/dashboard/playground/page.tsx:116 | `.join(' ')`; `JoinWordsNoSeparator` states that it adds no separator |
| `ModelNames.CapitalizeAll` | app/dashboard/playground/page.tsx:115 | the capitalisation of every piece: one result per piece, in order |
| `ModelNames.Words` | app/dashboard/playground/page.tsx:110-113 | the non-empty pieces of a stripped, rewritten id; `SplitSeparatorsWord` and `SplitSeparatorsSingle` state the pieces |
| `ModelNames.FormatModelName` | app/dashboard/playground/page.tsx:109-117 | the display name; `FormatModelNameNoSeparators` and `FormatModelNameExample` state it |
| `ModelNames.FormatModelNameNoSeparators` | app/dashboard/playground/page.tsx:110-117 | a formatted model name never contains `-` or `_` |
| `ModelNames.FormatModelNameExample` | app/dashboard/playground/page.tsx:110-117 | `google/gemini-2-5-pro` is shown as `Gemini 2.5 Pro` |
| `ModelNames.ToModelOption` | app/dashboard/playground/page.tsx:154-165 | one selector entry; `ModelListEntry` states its fields |
| `ModelNames.ModelList` | app/dashboard/playground/page.tsx:155-166 | one selector entry per quota item |
| `ModelNames.ModelListEntry` | app/dashboard/playground/page.tsx:155-166 | each entry is keyed by its model id, shows the formatted name, carries the quota figures and names exactly its provider |
| `ModelNames.ModelListNamesHaveNoSeparators` | app/dashboard/playground/page.tsx:158 | no entry name contains `-` or `_` |
| `SharedPoolModels.SortByQuota` | components/shared-pool-models.tsx:38 | the array ends sorted by remaining quota, largest first, and is a permutation of what it was |
| `SharedPoolModels.InsertLeft` | components/shared-pool-models.tsx:38 | one insertion step extends the sorted prefix by one entry and permutes the array |
| `SharedPoolModels.SortedModels` | components/shared-pool-models.tsx:34-38 | the table rows are the pool's entries, as a permutation, largest remaining quota first |
| `SharedPoolModels.SortedHeadIsLargest` | components/shared-pool-models.tsx:38 | the first row has at least the quota of every entry |
| `SharedPoolModels.GetModelDisplayName` | components/shared-pool-models.tsx:50-69 | a listed id gets its name from the table; any other id is shown as itself |
| `SharedPoolModels.DisplayNameIdempotent` | components/shared-pool-models.tsx:50-69 | a display name is shown as itself |
| `SharedPoolModels.DisplayNamesDistinct` | components/shared-pool-models.tsx:51-67 | distinct listed ids get distinct names |
| `SharedPoolModels.GetModelIcon` | components/shared-pool-models.tsx:75-86 | the icon is that of the first of gemini, claude, gpt the lower-cased name contains, and the default logo otherwise |
| `SharedPoolModels.IconIgnoresCase` | components/shared-pool-models.tsx:76 | the icon does not depend on ASCII case |
| `SharedPoolModels.JsRem` | components/shared-pool-models.tsx:94 | JavaScript's `%`: the remainder lies below the divisor and takes the dividend's sign |
| `SharedPoolModels.Hours` | components/shared-pool-models.tsx:93 | the floored hours of a difference; `ResetLabelBounds` states the floor |
| `SharedPoolModels.Minutes` | components/shared-pool-models.tsx:94 | the floored minutes within the hour; `ResetLabelBounds` states the floor and the range 0..59 |
| `SharedPoolModels.ResetLabelOf` | components/shared-pool-models.tsx:88-99 | unlimited exactly without a reset time, expired exactly for a negative difference, and not-a-number exactly for an unparsable time |
| `SharedPoolModels.ResetLabelOfDiff` | components/shared-pool-models.tsx:92-99 | for a future reset: days when more than 24 hours are left, hours and minutes when 1 to 24, minutes only below an hour |
| `SharedPoolModels.ResetLabelBounds` | components/shared-pool-models.tsx:93-94 | the hours and minutes shown are the floor of the time left, and the minutes lie in 0..59 |
| `SharedPoolModels.ResetDaysAreWholeDays` | components/shared-pool-models.tsx:97 | the days shown are the whole days left |
| `SharedPoolModels.FormatResetTime` | components/shared-pool-models.tsx:88-99 | the reset-time text; `ResetLabelOf`, `FormatResetTimeFixedTexts` and `FormatResetTimeExample` state it |
| `SharedPoolModels.FormatResetTimeFixedTexts` | components/shared-pool-models.tsx:89-96 | no reset time reads `无限制`, and a past one reads `已过期` |
| `SharedPoolModels.FormatResetTimeExample` | components/shared-pool-models.tsx:98 | an hour and a half ahead reads `1小时30分钟后` |
| `SharedPoolModels.IsAvailable` | components/shared-pool-models.tsx:188 | quota left and status 1; `AvailableBeforeExhausted` states where such entries sort |
| `SharedPoolModels.AvailableBeforeExhausted` | components/shared-pool-models.tsx:188 | in the sorted table every available entry comes before every entry whose quota is used up |
| `SectionCards.AvailableModels` | components/section-cards.tsx:43 | the entries with quota left and status 1; `AvailableCountExtremes` and `AvailableCountAppend` state their count |
| `SectionCards.InLastDay` | components/section-cards.tsx:46-48 | a parsed time at most one day old; `RecentConsumptionMembers` and `RecentConsumptionBoundary` state it |
| `SectionCards.RecentConsumption` | components/section-cards.tsx:46-48 | the records of the last day; `RecentConsumptionMembers`, `RecentConsumptionAppend` and `RecentConsumptionShrinks` state it |
| `SectionCards.ComputeStats` | components/section-cards.tsx:41-60 | the account figures are copied, the model total is the number of entries, the available count is the number of available entries and the call count is the number of records of the last day; both counts are bounded by their totals |
| `SectionCards.AvailableCountExtremes` | components/section-cards.tsx:43 | the available count equals the total exactly when every entry is available, and is zero exactly when none is |
| `SectionCards.AvailableCountAppend` | components/section-cards.tsx:43 | the available count adds up over any split of the entries |
| `SectionCards.RecentConsumptionMembers` | components/section-cards.tsx:46-48 | a record is kept exactly when its time parses and is at least `now` minus one day |
| `SectionCards.RecentConsumptionBoundary` | components/section-cards.tsx:47-48 | a record exactly one day old is kept |
| `SectionCards.RecentConsumptionAppend` | components/section-cards.tsx:48 | the kept records keep their order, over any split of the data |
| `SectionCards.CallsCountAll` | components/section-cards.tsx:48-51 | the call count equals the number of records exactly when all lie in the last day |
| `SectionCards.RecentConsumptionShrinks` | components/section-cards.tsx:46-51 | moving the clock forward never raises the call count |
| `SectionCards.AccountAvailabilityRate` | components/section-cards.tsx:100-102 | the rate is `'0'` exactly without statistics or without accounts; otherwise it is active over total |
| `SectionCards.ModelAvailabilityRate` | components/section-cards.tsx:103-105 | the rate is `'0'` exactly without statistics or without models; otherwise it is available over total |
| `SectionCards.ModelRateAtMostWhole` | components/section-cards.tsx:103-105 | the computed model rate lies between 0 and 100 percent |
| `SectionCards.ModelRateZeroIff` | components/section-cards.tsx:103-105 | the computed model rate is `'0'` exactly when the pool lists no model |
| `Text.Lower` | app/dashboard/playground/page.tsx:96 | ASCII `toLowerCase`: same length, each character lower-cased |
| `Text.LowerIdempotent` | app/dashboard/playground/page.tsx:96 | lower-casing twice is lower-casing once |
| `Text.FindFrom` | app/dashboard/playground/page.tsx:295 | the leftmost occurrence of a pattern at or after a position, or none when there is none |
| `Text.Contains` | app/dashboard/playground/page.tsx:97 | `includes`; `ContainsIff` states it |
| `Text.StartsWith` | app/dashboard/playground/page.tsx:261 | `startsWith`: the string has the pattern as its prefix |
| `Text.Decimal` | app/dashboard/playground/page.tsx:202 | the template-literal rendering of a number: a non-empty digit string without a leading zero; `DecimalRoundTrip` reads it back |
| `Seqs.Filter` | components/section-cards.tsx:43 | `Array.prototype.filter`: at most as long as the input, and it holds exactly the input elements that satisfy the predicate |
| `Text.Trim` | app/dashboard/playground/page.tsx:297 | `trim` removes ASCII whitespace: the result is empty exactly for an all-space input and otherwise starts and ends with a non-space |
| `Text.TrimPadded` | app/dashboard/playground/page.tsx:297 | whitespace padding on either side of a string does not survive `trim` |
| `Text.TrimIdempotent` | app/dashboard/playground/page.tsx:378 | trimming twice is trimming once |
| `Text.FindFromAppend` | app/dashboard/playground/page.tsx:295 | an occurrence found in a buffer is still the leftmost one after more text is appended |
| `Text.ContainsIff` | app/dashboard/playground/page.tsx:97 | `includes` holds exactly when the pattern occurs somewhere |
| `Text.DecimalRoundTrip` | app/dashboard/playground/page.tsx:202 | the decimal rendering of a clock reading reads back as that number |
| `Text.DecimalInjective` | app/dashboard/playground/page.tsx:202 | distinct numbers render differently |

## Left out

- The network calls are not modelled; their results are method arguments. These are `getUserQuotas`, `sendChatCompletionStream`, `getSharedPoolStats`, `getQuotaConsumption` and the `Promise.all` around the last two.
- `toast`, `console.error`, the clipboard copy and the textarea auto-height effect are not modelled. They are browser side effects.
- The sampling settings are not modelled: temperature, top-p, the penalties and `parseInt` of the token limit. They are floating-point UI state. The request carries only the model and the messages.
- The consumed-quota sum of the cards (`parseFloat` then sum) is not modelled, nor the `toFixed` renderings of quotas and rates. Quotas are `real`, and a rate is the pair of integers it is computed from.
- `Date.now()` and `new Date(...)` parsing are not modelled. Clock readings, time differences and parsed record times are parameters; an unparsable record time is `None`, and no comparison accepts it.
- Only ASCII whitespace and case are modelled. `trim` and `toLowerCase` handle only ASCII; the JavaScript ones also handle Unicode whitespace and letters.
- `displayContent` (page.tsx lines 195-199) is not modelled. The source computes it and never uses it.
- `SharedPoolModels.GetModelDisplayName` reads the table as a plain map. JavaScript's object lookup would also find inherited properties such as `toString` for those ids.
- `SharedPoolModels.SortByQuota` does not state stability. The sort is stable, but the contract promises only order and permutation.
- `SharedPoolModels.JsRem` states only the range and sign of the remainder. The exact value is not stated, because that nonlinear fact is costly to prove; `ResetLabelBounds` proves what the label needs.
- The NaN comparisons of `total_quota` are not modelled. Quotas are real numbers, so a NaN quota has no counterpart.
- The `availableCookies` column and the other table cells only display fields; they are not modelled.
- The image-preview, image-generation, switch, badge and tooltip UI components are not modelled. They are DOM and styling code.
- `Conversation.ApplyChunk`: its own contract states only the length kept. `ApplyChunkOnly` states what happens to each version.
- `Conversation.EditVersion`: its own contract states only the length kept. `EditVersionOnly` states what happens to each version.
- `ChatRequest.Entries`: its own contract states only the entry count. `HistoryAt` states each entry.
- `ChatRequest.ImageParts`: its own contract states only that every part is an image part. `ImagePartsSnoc` and `ImagePartsFromImages` state which parts there are.
- `Playground.Attachments`: its own contract states only the count. `AttachmentsFilled` states each attachment: the file's url, media type and file name, with the fallbacks for missing or empty ones.
- `ModelNames.StripProviderPrefix`: its contract states only that the result is a suffix of the id. `ExampleStrip` shows a prefix being dropped.
- `ModelNames.DotVersions`: its own contract states only the length kept. `DotVersionsAtFront` (a version number at the front) and `DotVersionsStep` (anything else, a digit run without `-digit` after it included) together state the whole rewrite; `DotVersionsChangeAt`, `DotVersionsAtVersion` and `DotVersionsSkipsNonDigits` state its consequences.
- `ModelNames.SplitSeparators`: its own contract states only that there is at least one piece and that no piece contains a separator. `SplitSeparatorsWord` and `SplitSeparatorsSingle` state the pieces.
- `ModelNames.Capitalize`: its contract states only that the length is kept and no separator is added.
- `ModelNames.ModelList`: its own contract states only the entry count. `ModelListEntry` states each entry.
