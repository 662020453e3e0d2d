# A verified model of the Gemini Telegram bot's core

`Bot.js` is a Telegram bot that forwards files and messages to Google's
Gemini models. This project models the parts of it that decide what the
bot does:

- **the per-chat mode machine** of the event handlers. Six structures
  record what a chat is doing: the `awaitingApiKey` set, the `activeChats`
  map and four analysis-state maps. Each handler clears, sets or reads
  them;
- **the per-user rate limiter** `isRateLimited`: five requests per minute;
- **the delivery protocol**:
  - `offsetHandling` sends the text raw as MarkdownV2 once;
  - `sendMessageWithRetry` then sends the sanitized text up to three
    times, and finally sends the unformatted original;
  - `escapeMarkdown`/`sanitizeText` are the text transformations they use;
- **`getMimeType`**: it maps a file link's extension to a MIME type;
- **the helpers**:
  - `validateApiKey` with its ten-minute cache;
  - the `addApiKey` upsert;
  - the history update of `generateText`;
  - the sorting of Gemini errors by substrings of their message.

Each module's inputs:

- The clock `Date.now()` is a parameter in milliseconds.
- The key row the database returns is an input (`KeyRow`).
- Telegram's answer to the i-th send of one delivery is an oracle
  (`nat -> SendOutcome`).
- Gemini's answers are inputs: whether the test prompt succeeded, the
  chat reply, and whether an analysis ran to completion.
- SHA-256 and AES are fixed functions given to the key store.

State the source updates in place lives in classes, each with a
`modifies` frame:

| class | what it holds |
|---|---|
| `ChatModes.ModeTables` | the six structures |
| `RateLimit.RateLimiter` | `userRequests` |
| `ApiKeys.KeyValidationCache` | the NodeCache |
| `ApiKeys.KeyStore` | the `users` table |
| `History.ChatHistoryStore` | `chatHistory` |

Each method is proved against a pure function of the old state. The
properties are then proved about that function.

The main results:

- At most one of the six structures holds a chat, after any sequence of
  handler runs (`AllRunsExclusive`).
- The handlers implement a five-mode machine (`NextMode`):
  - idle;
  - entering a key;
  - chatting;
  - awaiting a file of a kind;
  - awaiting a request about an uploaded file.
- Inside one window, the sixth call is the rate limiter's first rejection.
- The retry protocol has exactly one run per oracle. It sends only the
  sanitized ORIGINAL text, so an already escaped text is never escaped a
  second time. This matters because escaping is not idempotent.
- Escaping loses nothing (`Unescape` undoes it). Sanitizing converts
  exactly the input's backslash-`n` pairs into newlines.
- Under Telegram's MarkdownV2 reading of escaped characters, an escaped text
  without backslashes arrives as exactly itself. A backslash the text itself
  puts before a reserved character (and after no other backslash) is not
  escaped, so that character stays markup: the escaped text is not read
  literally, and a sanitized send of it may fail.
- `getMimeType` ignores case and follows Node's `path.extname`.
- A cache miss sends one probe, and a second validation inside the TTL
  sends none.
- The history array is shared between the table, the bot and the Gemini
  chat session. So a readable exchange adds four entries: the opening turn,
  the user's input, and the reply twice. An exchange whose reply cannot be
  read still leaves its entries in an existing history.

Three behaviours of the code worth knowing:

- In a chat that awaits a description, a user without a key row gets the
  "no key" reply. The analysis state is KEPT, because the handler returns
  before it deletes the state (`Bot.js:521-523`).
- The analysis functions catch their own errors, so a completed analysis
  always clears the state.
- The `getMimeType` table has 17 extensions (`Bot.js:1096-1127`).

## Model

| member | source | states |
|---|---|---|
| `ChatModes.WithMedia` | Bot.js:262-278 | changing one kind's analysis entry leaves the other three kinds, the key wait and the chat flag as they were |
| `ChatModes.CommandsClearOthers` | Bot.js:172-477 | `/start` and `/help` clear all six structures; `/startchat`, `/setkey` and each analysis command clear the five structures other than their own |
| `ChatModes.UploadMovesOnlyOwnMap` | Bot.js:285-433 | an upload changes only its own kind's map, and only from awaiting an upload to awaiting a description of that file; a document that is not `application/pdf` changes nothing; the state changes exactly when the upload is accepted |
| `ChatModes.EndChatOnlyLeavesChat` | Bot.js:638-646 | `/endchat` removes the chat from `activeChats` and nothing else, and answers according to whether the chat was active |
| `ChatModes.ActiveChatsNeverClearedByStartChatOrText` | Bot.js:213-256 | `/startchat` never deactivates a chat, and the text handler never changes `activeChats` |
| `ChatModes.AnalyzeWithoutKeyKeepsOwnMap` | Bot.js:259-282 | an analysis command by a user without a key row (or whose lookup failed) keeps its own map as it was |
| `ChatModes.TextOnlyRemoves` | Bot.js:480-635 | the text handler never adds the chat to any structure; it only drops the key wait or the described kind's entry |
| `ChatModes.HandlePreservesExclusive` | Bot.js:163-647 | every handler keeps a chat in at most one of the six structures |
| `ChatModes.ViewOfMode` | Bot.js:163-170 | the entries that represent a mode hold the chat in at most one structure |
| `ChatModes.ModeRoundTrip` | Bot.js:163-170 | modes and exclusive per-chat entries correspond one to one, in both directions |
| `ChatModes.HandleRefinesNextMode` | Bot.js:172-646 | on exclusive entries every handler moves the chat to the mode the reference machine `NextMode` gives |
| `ChatModes.TextInRequestMode` | Bot.js:516-600 | a message while a request is awaited leaves that mode exactly when a key row exists and the analysis completes |
| `ChatModes.DescriptionRunsAnalysis` | Bot.js:516-534 | a request message runs the analysis of the stored file link with the message as the request, and returns the chat to idle |
| `ChatModes.KeyEntryComesFirst` | Bot.js:488-512 | a pending key entry takes the next message whatever else is held: a blank trimmed text is refused, any other is checked, and the key wait ends |
| `ChatModes.SetEntry` | Bot.js:164-169 | setting or deleting one chat's entry of a map leaves every other chat's entry as it was |
| `ChatModes.SetMember` | Bot.js:164-165 | adding or removing one chat leaves the other chats' membership unchanged |
| `ChatModes.Put` | Bot.js:163-170 | writing one chat's entries sets exactly those entries and leaves every other chat's entries as they were |
| `ChatModes.PutOwnView` | Bot.js:163-170 | writing back a chat's own entries changes no table |
| `ChatModes.ApplyPreservesAllExclusive` | Bot.js:163-647 | a handler run for one chat keeps every chat exclusive |
| `ChatModes.EmptyTablesExclusive` | Bot.js:163-170 | the initial empty structures are exclusive for every chat |
| `ChatModes.AllRunsExclusive` | Bot.js:163-647 | any run of handler calls, each for its own chat, keeps every chat exclusive |
| `ChatModes.OnStart` | Bot.js:172-209 | no contract of its own; `CommandsClearOthers` and `HandleRefinesNextMode` state it |
| `ChatModes.OnStartChat` | Bot.js:213-256 | no contract of its own; `CommandsClearOthers`, `ActiveChatsNeverClearedByStartChatOrText` and `HandleRefinesNextMode` state it |
| `ChatModes.OnAnalyzeCommand` | Bot.js:259-415 | no contract of its own; `CommandsClearOthers`, `AnalyzeWithoutKeyKeepsOwnMap` and `HandleRefinesNextMode` state it |
| `ChatModes.OnUpload` | Bot.js:285-433 | no contract of its own; `UploadMovesOnlyOwnMap` and `HandleRefinesNextMode` state it |
| `ChatModes.OnHelp` | Bot.js:435-464 | no contract of its own; `CommandsClearOthers` states it |
| `ChatModes.OnSetKey` | Bot.js:467-477 | no contract of its own; `CommandsClearOthers` and `HandleRefinesNextMode` state it |
| `ChatModes.OnEndChat` | Bot.js:638-646 | no contract of its own; `EndChatOnlyLeavesChat` states it |
| `ChatModes.OnText` | Bot.js:480-635 | no contract of its own; `TextOnlyRemoves`, `KeyEntryComesFirst`, `TextInRequestMode` and `DescriptionRunsAnalysis` state it |
| `ChatModes.Describe` | Bot.js:514-603 | no contract of its own; `TextInRequestMode` and `DescriptionRunsAnalysis` state it |
| `ChatModes.Dispatch` | Bot.js:514-633 | no contract of its own; `TextOnlyRemoves` and `HandleRefinesNextMode` state it |
| `ChatModes.Handle` | Bot.js:172-646 | no contract of its own; `HandlePreservesExclusive` and `HandleRefinesNextMode` state it |
| `ChatModes.NextMode` | Bot.js:172-646 | the reference machine per mode; `HandleRefinesNextMode` ties the handlers to it |
| `ChatModes.ModeTables.Start` | Bot.js:172-209 | `/start` updates the structures and answers as the pure handler does |
| `ChatModes.ModeTables.StartChat` | Bot.js:213-256 | `/startchat` likewise |
| `ChatModes.ModeTables.AnalyzeCommand` | Bot.js:259-415 | the four analysis commands likewise |
| `ChatModes.ModeTables.Upload` | Bot.js:285-433 | the photo, audio, document and video handlers likewise |
| `ChatModes.ModeTables.Help` | Bot.js:435-464 | `/help` likewise |
| `ChatModes.ModeTables.SetKey` | Bot.js:467-477 | `/setkey` likewise |
| `ChatModes.ModeTables.EndChat` | Bot.js:638-646 | `/endchat` likewise |
| `ChatModes.ModeTables.Message` | Bot.js:480-635 | the text handler updates the structures and answers as the pure text handler does |
| `ChatModes.ModeTables.KeyEntry` | Bot.js:488-512 | the key-entry branch ends the key wait and checks or refuses the trimmed key |
| `ChatModes.ModeTables.DescriptionOrChat` | Bot.js:516-633 | the branches after key entry: a description of the first awaiting kind, then the active chat, then the menu |
| `ChatModes.ModeTables.DescriptionBranch` | Bot.js:516-600 | one kind's description branch: without a key row the state stays; a completed analysis deletes it |
| `RateLimit.StepSpec` | Bot.js:115-132 | a new window (first call, or more than 60000 ms after the reset) resets the count to 1 and allows the call; any other call counts and is rejected exactly when the count exceeds 5; other users are untouched |
| `RateLimit.Step` | Bot.js:115-132 | no contract of its own; `StepSpec` states it |
| `RateLimit.Run` | Bot.js:115-132 | a run of calls gives one answer per call |
| `RateLimit.WindowRun` | Bot.js:115-132 | inside one window, the i-th further call is rejected exactly when the count it makes exceeds 5, and the count grows by the number of calls |
| `RateLimit.SixthCallIsFirstRejection` | Bot.js:116-132 | from a window's first call, the calls within a minute of it are allowed five times and rejected from the sixth on |
| `RateLimit.RateLimiter.IsRateLimited` | Bot.js:115-132 | the method updates `userRequests` and answers as one step of the limiter does |
| `Markdown.IsSpecialIsMembership` | Bot.js:1242-1243 | the written-out test is membership in the reserved set `_*[]()~`>#+-=\|{}.!` |
| `Markdown.EscapeMarkdown` | Bot.js:1241-1244 | the escaped text is longer by one per reserved character and is empty exactly when the input is; its first character is a backslash if the input's first character is reserved, and otherwise the input's first character |
| `Markdown.ReplaceNewlineMarkers` | Bot.js:1249 | the result holds no backslash-`n` pair, is no longer than the input and is empty exactly when the input is |
| `Markdown.UnescapeEscape` | Bot.js:1241-1244 | removing the inserted backslashes gives back the input: escaping loses nothing |
| `Markdown.EscapeKeepsSpecialCount` | Bot.js:1241-1244 | escaping keeps the number of reserved characters |
| `Markdown.CountSpecialAppend` | Bot.js:1241-1244 | reserved characters of a concatenation add up |
| `Markdown.EscapeNotIdempotent` | Bot.js:1241-1244 | escaping twice differs from escaping once for every text with a reserved character |
| `Markdown.SanitizeConvertsInputMarkers` | Bot.js:1246-1251 | sanitizing is converting the input's newline markers and then escaping: escaping neither creates nor destroys a marker |
| `Markdown.EscapedReadsLiterally` | Bot.js:1241-1244 | a text without backslashes, once escaped, reads under MarkdownV2 as exactly that text |
| `Markdown.BackslashBeforeReservedIsMarkup` | Bot.js:1241-1244 | for any text with a backslash that follows no other backslash and precedes a reserved character, the escaped text is not read as plain characters: that reserved character is left as markup |
| `Markdown.MarkupAfter` | Bot.js:1241-1244 | a text not ending in a backslash, then a backslash and a reserved character, escapes to a text that is not read as plain characters, whatever follows |
| `Markdown.EscapedPair` | Bot.js:1241-1244 | a backslash and a reserved character escape to a text that is not read as plain characters, whatever follows |
| `Markdown.EscapeAppend` | Bot.js:1241-1244 | escaping is character by character: the escape of a concatenation is the concatenation of the escapes |
| `Markdown.EscapeLast` | Bot.js:1241-1244 | escaping keeps the last character |
| `Markdown.ReadNoneAfter` | Bot.js:1241-1244 | under the MarkdownV2 reading, a text not ending in a backslash cannot make a following non-literal text literal |
| `Markdown.SanitizeText` | Bot.js:1246-1251 | no contract of its own; `SanitizeConvertsInputMarkers` states it as escaping the input with its newline markers converted |
| `Markdown.SanitizeMarkerStep` | Bot.js:1246-1251 | a leading newline marker becomes a newline before the sanitized rest |
| `Markdown.SanitizeCharStep` | Bot.js:1246-1251 | a leading character that starts no marker is escaped in front of the sanitized rest |
| `Delivery.SendMessageWithRetry` | Bot.js:1258-1297 | the run keeps the whole retry contract: sanitized sends while they fail with "can't parse entities", within three attempts; another error is rethrown at once; an exhausted budget ends with one plain send of the original text, whose outcome is the result |
| `Delivery.OffsetHandling` | Bot.js:1232-1240 | one raw MarkdownV2 send; on success nothing else is sent; on any failure the retry protocol runs on the original text |
| `Delivery.RetryContractDeterministic` | Bot.js:1258-1297 | given Telegram's answers, the result and the sends are fully determined |
| `Delivery.ParseErrorThenSuccess` | Bot.js:1262-1280 | a parse failure then a success gives exactly two sanitized sends and success |
| `Delivery.ExhaustedBudgetFallsBack` | Bot.js:1276-1297 | three parse failures give three sanitized sends and then the plain send, whose outcome is the result |
| `Delivery.OtherErrorIsRethrown` | Bot.js:1276-1286 | an error of another kind ends the run with that error and without a fallback |
| `Delivery.DeliveryNeverReescapes` | Bot.js:1232-1297 | after the raw send, every MarkdownV2 send carries the sanitized original text, every plain send the original, and nothing follows a success |
| `Mime.GetMimeType` | Bot.js:1093-1132 | no contract of its own; `MimeTypeCaseInsensitive`, `KnownExtension` and `NoExtensionIsBinary` state it |
| `Mime.MimeOfExtension` | Bot.js:1095-1131 | no contract of its own; `ListedAreExtensions` and `KnownExtension` state it |
| `Mime.Extname` | Bot.js:1094 | no contract of its own; `ExtnameIsExtension`, `ExtnameCommutesWithLower` and `ExtnameOfAppend` state it |
| `Mime.ToLower` | Bot.js:1094 | lower-casing keeps the length and lowers each character |
| `Mime.StripTrailingSlashes` | Bot.js:1094 | the stripped path is a prefix of the path that does not end in a slash, and every character removed is a slash |
| `Mime.LastIndexOf` | Bot.js:1094 | the index found holds the character, and no later index does |
| `Mime.LastSegment` | Bot.js:1094 | the last segment is the suffix of the path after its last slash (the whole path when there is none), and holds no slash |
| `Mime.SegmentExtension` | Bot.js:1094 | a segment's extension is a suffix of it that is empty or a dot followed by no other dot, and it is empty exactly when the segment is `..` or has no dot after its first character |
| `Mime.ExtnameIgnoresTrailingSlash` | Bot.js:1094 | a trailing slash does not change what `path.extname` returns |
| `Mime.ExtnameIsExtension` | Bot.js:1094 | `path.extname` gives the empty string or a dot followed by characters that are neither dots nor slashes |
| `Mime.ListedAreExtensions` | Bot.js:1095-1130 | every `case` label of the table is such an extension of at least four characters |
| `Mime.ExtnameCommutesWithLower` | Bot.js:1094 | the extension of the lower-cased link is the lower-cased extension |
| `Mime.MimeTypeCaseInsensitive` | Bot.js:1093-1132 | links equal up to letter case get the same MIME type |
| `Mime.KnownExtension` | Bot.js:1093-1132 | a name not ending in a slash followed by any listed extension, in any case, gets that extension's type |
| `Mime.ExtnameOfAppend` | Bot.js:1094 | a name not ending in a slash followed by an extension has that extension |
| `Mime.NoExtensionIsBinary` | Bot.js:1129-1130 | a link without an extension is `application/octet-stream` |
| `ApiKeys.CacheKey` | Bot.js:665 | the cache key is the prefix `apiKey_` followed by exactly the API key |
| `ApiKeys.CacheKeyInjective` | Bot.js:665 | distinct API keys have distinct cache keys |
| `ApiKeys.Lookup` | Bot.js:664-669 | a lookup answers exactly when the key is stored and its 600-second TTL has not run out, with the stored answer |
| `ApiKeys.Validate` | Bot.js:664-683 | the test prompt is sent exactly when the lookup misses; a hit returns the cached answer and keeps the cache; a miss caches and returns the prompt's outcome |
| `ApiKeys.ValidateIsolatesKeys` | Bot.js:664-683 | validating one key changes no other key's cached answer |
| `ApiKeys.AtMostOneProbePerWindow` | Bot.js:664-683 | after a miss, a second validation within ten minutes of the prompt's return sends nothing and gives the same answer |
| `ApiKeys.ExpiredEntryProbesAgain` | Bot.js:664-683 | an expired entry sends the prompt again and is replaced by its outcome |
| `ApiKeys.KeyValidationCache.ValidateApiKey` | Bot.js:664-683 | the method updates the cache and answers as `Validate` does |
| `ApiKeys.KeyStore.AddApiKey` | Bot.js:685-701 | an error is reported and leaves the table unchanged; otherwise the user's hashed row holds the encrypted key, updated or inserted |
| `ApiKeys.Upsert` | Bot.js:685-701 | the upsert adds the user's hashed id to the keys, stores the encrypted key under it and keeps every other row |
| `ApiKeys.UpsertLastWins` | Bot.js:685-701 | repeated upserts for one user leave one row with the last key |
| `ErrorKinds.ClassifyAnalysisError` | Bot.js:775-786 | the analysis chain never gives generateText's second safety reply |
| `ErrorKinds.ClassifyChatError` | Bot.js:1217-1229 | no contract of its own; `ChatRefinesAnalysis` and `ServerMarkerWins` state it |
| `ErrorKinds.AnalysisKinds` | Bot.js:775-786 | each kind of the analysis chain is the markers the message contains and the earlier ones it lacks, in both directions |
| `ErrorKinds.ChatRefinesAnalysis` | Bot.js:1217-1229 | generateText's chain agrees with the analysis chain except that quota or generic messages containing `OTHER` get the second safety reply |
| `ErrorKinds.ContainsInContext` | Bot.js:775 | a substring of a message is a substring of any message around it |
| `ErrorKinds.ServerMarkerWins` | Bot.js:1217-1219 | a message with `500 Internal Server Error` is a server error in both chains, whatever else it says |
| `ErrorKinds.ExhaustedIsQuota` | Bot.js:781-783 | a message with `Resource has been exhausted` and neither earlier marker is a quota error |
| `History.Pushed` | Bot.js:1175-1201 | one call pushes the opening turn first; four entries for a readable reply, three for an unreadable answer, one for no answer |
| `History.AfterExchange` | Bot.js:1175-1201 | a readable reply stores the history with the opening turn, the user's input and the reply twice appended; an unreadable answer appends the opening turn, the input and the candidate to an existing history; no answer appends only the opening turn; without a history and without a readable reply nothing is stored; other chats are untouched |
| `History.ExchangeKeepsHistoriesOrdered` | Bot.js:1175-1201 | every stored history starts with the opening turn, and every other user turn comes right after an opening turn; each call keeps this |
| `History.OrderedAppend` | Bot.js:1175-1201 | appending one call's pushes keeps a history in that order |
| `History.TranscriptAppend` | Bot.js:1175-1201 | the pushes of two runs concatenate |
| `History.ExistingChatRecordsEverything` | Bot.js:1175-1201 | in a chat with a history, every call is recorded in order, answered or not, and no other chat changes |
| `History.FirstReplyStartsHistory` | Bot.js:1136-1201 | a chat without a history gets one at its first readable reply, and from then on holds every later call's pushes |
| `History.UnreadRunsStoreNothing` | Bot.js:1136-1201 | a chat without a history has none while no reply is read |
| `History.AnsweredTranscript` | Bot.js:1175-1201 | n readable exchanges push 4n entries: for each, the opening turn, the user's input, and the reply twice as model turns |
| `History.FreshChatHistory` | Bot.js:1136-1201 | a new chat whose calls all get readable replies holds four entries per call, the user's inputs among them, and does not alternate user and model turns |
| `History.FailureLeavesOpeningBehind` | Bot.js:1175-1201 | no answer and then a readable reply in an existing chat put two opening turns in a row; no answer in a new chat changes nothing |
| `History.ChatHistoryStore.GenerateText` | Bot.js:1175-1201 | the method updates `chatHistory` as `AfterExchange` does, writing every push through to a stored array |
| `Base.TrimStart` | Bot.js:490 | leading whitespace removed: the result is a suffix and does not start with whitespace |
| `Base.TrimEnd` | Bot.js:490 | trailing whitespace removed: the result is a prefix and does not end with whitespace |
| `Base.Trim` | Bot.js:490 | no contract of its own; `TrimEmptyIff` states it |
| `Base.TrimEmptyIff` | Bot.js:490 | the trimmed key is empty exactly when the text is all whitespace |

## Left out

- Telegram I/O is not modelled: the bot client, polling, reconnection after polling errors, file downloads through `getFileLink` and `axios`, and the wording of the Persian replies. A reply is an outcome tag.
- The Gemini SDK is not modelled: file upload, `waitForFilesActive`, prompts and streaming. An analysis's completion and a chat's reply are inputs.
- History.AfterExchange takes the chat session's behaviour as given: it keeps the history array it was started on and, when the response has a candidate, pushes the user's content and the candidate's content onto it. The SDK is not part of this model: its validation of the history, and whether Gemini accepts two model turns in a row, are not modelled. A turn's parts are read as their joined text. "Has a candidate" stands for the SDK's own validity test of a response. A response with no candidate and no prompt feedback is not modelled either: `text()` gives an empty string and the session pushes nothing, so the bot would store the opening turn and an empty model turn (Bot.js:1193-1201), a two-entry shape that none of `Answered`, `Unreadable` and `NoAnswer` produces.
- SQLite is not modelled. The key row is an input, and the `users` table of `addApiKey` is a map keyed by the hashed user id.
- SHA-256 and AES-256 are not modelled (`Bot.js:19-43`). They are fixed functions, and decryption failures count as an analysis that did not complete.
- Concurrency between handlers is not modelled. Each handler runs to completion for one chat; the real handlers are `async` and can interleave at every `await`.
- The regular expressions `/\/startchat/`, `/\/help/` and the like also match in the middle of a text, and the message handler runs beside them. Each message is modelled as exactly one event.
- `getStartCommandStats`, `trackStartCommandUsage`, the admin check and logging are outside the core and not modelled.
- JavaScript numbers are modelled as unbounded integers; timestamps never reach 2^53.
- Mime.ToLower lowers ASCII letters only. No non-ASCII character lower-cases into one of the table's extensions, so the MIME types are the same as with `toLowerCase`.
- Delivery.SendMessageWithRetry reads the description from `error.response.description`, as the code does. Whether the Telegram client fills that field is outside the model, so the description is an optional input. If the client never fills it, every failure after the raw send is rethrown at the first sanitized attempt, with no retry and no plain fallback (`OtherErrorIsRethrown` with k = 0).
- `parse_mode: 'None'` is sent as written. Whether Telegram treats it as no formatting is outside the model.
- ChatModes.OnStartChat answers `ChatStarted` once the chat is marked active. A decryption failure after that point (Bot.js:244-246) is reported by the source instead; the new state is the same.
- ChatModes.OnUpload always accepts an awaited upload. In the source `getFileLink` is awaited outside any `try` (Bot.js:291, 334, 381, 424); if it rejects, the state stays and nothing is replied.
- ChatModes.ModeTables.DescriptionBranch does not separate the exceptions that escape an analysis (a decryption failure, an error without `message`). They all count as one `completes` input that leaves the state in place.
