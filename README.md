# Legal-rights chat: the `/chat` handler, modelled in Dafny

The server answers questions about women's legal rights in India. It loads
a FAQ table (`legal_faq.csv`) into `legalData` when it starts, and it
keeps `userMemory`, a per-caller conversation history keyed by the caller's
address. A `POST /chat` request runs these steps in order:

1. **Input guard.** A missing or falsy `message` gets "Please enter a valid question.". So does a string shorter than two UTF-16 units once trimmed. A truthy non-string `message` makes `trim` throw: status 500, "Server error while generating reply.", and memory is left untouched.
2. **Junk filter.** A trimmed string of one to three ASCII letters gets "Please ask a meaningful legal question.".
3. **Knowledge lookup.** The lower-cased message is compared with every stored question. The first best match is taken if its score is strictly above 0.65. The reply is then the stored answer, plus a "📘 Related Law" footer when the entry has a law reference.
4. **Gateway gate.** Without an API key the reply is "AI service unavailable.".
5. **Fallback.**
   - The caller's history is created if absent, the user turn is pushed, and the history is cut to its last eight turns.
   - The generative model is called with that history.
   - On success, the trimmed text is pushed as a model turn and returned. A text that is empty once trimmed becomes "Please rephrase your question.".
   - A gateway call or a `text()` that throws gives status 500 and "Server error while generating reply.". The user turn stays stored.

The model follows this structure module by module:

- `JsText`: the JavaScript string operations the handler relies on. These are `trim` (ECMAScript whitespace and line terminators), `.length` in UTF-16 code units, ASCII `toLowerCase`, and the junk regular expression.
- `KnowledgeBase`: CSV rows, normalised entries, and the first-maximum best match over an abstract similarity score `rate`. The threshold is 0.65, and the reply is built with the law-reference footer.
- `ConversationMemory`: turns, the last-eight cut, and the invariants of a stored history.
- `ChatPipeline`:
  - `Respond` is the whole handler as a function of the knowledge base, the score, the memory before the request, the caller, the `message` field and the gateway.
  - `Fallback` is its memory-changing path.
  - The lemmas cover the guard, replies, well-formedness and isolation between callers.
- `ChatService`: the class `ChatServer`. It holds `legalData` and `userMemory` and updates them in place:
  - `AddRow` and `LoadRows` model the CSV stream.
  - `PushUserTurn` does the create, push and `splice`.
  - `AskGateway` and `Resolve` model the handler.
  - Each method is proved against the functions above.
- `ChatRuns`: any sequence of requests from process start. For every caller, the stored history is the tail of everything recorded for that caller, and every stored history stays well formed.
- `ChatScenarios`: concrete requests worked through `Respond`.

Three consequences of the code are worth stating on their own:

- **Short words.** `/^[a-z]{1,3}$/i` also rejects ordinary two-letter words such as `"hi"`, so they never reach the gateway (`ShortWordsRejected`).
- **History length.** The cut happens before the model turn is pushed, so a stored history can hold 9 turns (`NineTurnsAfterSuccess`, `KeepsTail`, `WellFormed`). The gateway never receives more than 8 (`Respond`).
- **Empty replies.** A hit on an entry whose answer and reference are both empty replies with `""`. No other reply is empty (`EmptyReplyOnlyFromEmptyEntry`).

## Model

| member | source | states |
|---|---|---|
| JsText.TrimStart | server.js:203 | the result is a suffix of the input, everything dropped is whitespace, and the result does not start with whitespace |
| JsText.TrimEnd | server.js:203 | the result is a prefix of the input, everything dropped is whitespace, and the result does not end with whitespace |
| JsText.Trim | server.js:203 | `trim` never lengthens a string and leaves no whitespace at either end |
| JsText.TrimStartDropsWhitespace | server.js:203 | the prefix `TrimStart` removes is all whitespace |
| JsText.TrimEndDropsWhitespace | server.js:203 | the suffix `TrimEnd` removes is all whitespace |
| JsText.TrimIsSlice | server.js:198-203 | `trim` returns a contiguous slice of the input with only whitespace on either side of it |
| JsText.TrimStartPadded | server.js:203 | prefixing whitespace to a string that does not start with whitespace is undone exactly by `TrimStart` |
| JsText.TrimEndPadded | server.js:203 | appending whitespace to a string that does not end with whitespace is undone exactly by `TrimEnd` |
| JsText.TrimPadded | server.js:203 | `trim` of whitespace + t + whitespace is t, for non-empty t without whitespace at its ends (the round trip of padding) |
| JsText.TrimOfTrimmed | server.js:203 | a string without whitespace at its ends is its own trim, so trimming twice is trimming once |
| JsText.Utf16LengthBounds | server.js:198 | `.length` lies between the character count and twice it, and equals the character count iff no character is astral |
| JsText.LowerChar | server.js:219 | lower-casing maps each ASCII upper-case letter to the lower-case letter at the same alphabet position, keeps letters letters, leaves no upper-case ASCII letter, and leaves every other character alone |
| JsText.Lower | server.js:219 | `toLowerCase` keeps the length, maps each character on its own and yields a lower-case string |
| JsText.LowerOfLower | server.js:172 | a lower-case string is unchanged by `toLowerCase` (lower-casing is idempotent) |
| JsText.NotJunkIff | server.js:206 | a non-empty string escapes the junk pattern iff it has four or more characters or a non-ASCII-letter |
| KnowledgeBase.NormalizeRow | server.js:170-175 | a stored entry has a lower-case question equal to the row's lower-cased question, and each missing column becomes "" |
| KnowledgeBase.FirstMaxIndex | server.js:218-221 | the best index holds a maximal score, and every earlier score is strictly smaller |
| KnowledgeBase.Lookup | server.js:215-223 | a hit is above the threshold, has the greatest score, and no earlier entry has that score |
| KnowledgeBase.LookupHitIff | server.js:215-223 | there is a hit iff some stored question scores above 0.65 (an empty table never hits) |
| KnowledgeBase.FormatAnswerParts | server.js:224-228 | the reply starts with the answer, and the rest is empty iff there is no reference, otherwise the footer then the reference |
| KnowledgeBase.FormatAnswerEmpty | server.js:224-228 | the reply for a hit is empty iff both the answer and the reference are empty |
| KnowledgeBase.ExactQuestionHits | server.js:218-223 | for a score with the library's range, a message equal to a stored question up to ASCII case always hits, at or before that question, with score 1 |
| ConversationMemory.KeepLast | server.js:252-253 | the cut history is the last min(n, 8) turns of the history, in order |
| ConversationMemory.AddUserTurn | server.js:242-253 | the history handed to the gateway has 1 to 8 turns, ends with the user turn, and is the tail of the old history plus that turn |
| ConversationMemory.UserTurnWellFormed | server.js:247-253 | pushing a non-empty user turn and cutting keeps a history well formed, with room for one more turn |
| ConversationMemory.ModelTurnWellFormed | server.js:278-281 | pushing a non-empty model turn onto a history of at most 8 turns keeps it well formed |
| ConversationMemory.ExchangeWellFormed | server.js:247-281 | a full exchange keeps a stored history within 9 turns, a 9-turn history ending with a model turn, and no empty turn |
| ConversationMemory.UserTurnKeepsTail | server.js:247-253 | after a user turn, the stored history is still the tail of the transcript: at least its last 8 turns and at most 9 |
| ConversationMemory.ExchangeKeepsTail | server.js:247-281 | the same after a user turn and a model turn |
| ChatPipeline.Screen | server.js:195-210 | the guard passes only non-empty text, a truthy non-string is exactly what crashes, and a rejection carries one of the two guard replies |
| ChatPipeline.ScreenVerdicts | server.js:198-210 | what passes is the trimmed text, at least two UTF-16 units, not junk, with no whitespace at its ends; the junk reply goes exactly to junk of length two or more |
| ChatPipeline.InvalidIff | server.js:198-201 | "Please enter a valid question." goes exactly to a missing or falsy field and to a string shorter than two UTF-16 units once trimmed |
| ChatPipeline.ScreenAcceptsIff | server.js:198-210 | a string passes iff, trimmed, it has at least two UTF-16 units and either four or more characters or a non-letter |
| ChatPipeline.ModelReply | server.js:274-276 | the fallback reply is never empty: the trimmed model text, or the "rephrase" sentinel exactly when that is empty |
| ChatPipeline.Fallback | server.js:242-289 | the gateway sees the cut history; a failure gives 500 and stores that history, a success gives 200 and stores it plus one model turn holding the reply; nothing else in memory changes |
| ChatPipeline.Respond | server.js:193-290 | guard replies, a crash, a hit and a missing gateway answer with memory unchanged and no gateway call; exactly the requests that pass, miss and have a gateway take the fallback; the gateway never sees more than 8 turns |
| ChatPipeline.RespondOtherCaller | server.js:242-281 | a request leaves every other caller's history, and whether it has one, unchanged |
| ChatPipeline.StoreWellFormed | server.js:242-243 | storing a well-formed history keeps the whole memory well formed |
| ChatPipeline.FallbackKeepsWellFormed | server.js:242-289 | the fallback path keeps every stored history well formed, whatever the gateway returns |
| ChatPipeline.RespondKeepsWellFormed | server.js:193-290 | every request keeps every stored history well formed |
| ChatPipeline.EmptyReplyOnlyFromEmptyEntry | server.js:224-230 | an empty reply happens only for a hit on an entry with neither answer nor reference |
| ChatPipeline.ExactQuestionAnswered | server.js:203-230 | a message equal to a stored question up to ASCII case and surrounding whitespace is answered from the table with a score-1 entry, with no gateway call and memory unchanged |
| ChatRuns.FailureRecords | server.js:245-289 | after a gateway failure the caller's history is the cut history, and the user turn alone is recorded |
| ChatRuns.SuccessRecords | server.js:245-283 | after a success the caller's history is the cut history plus the model turn, and both turns are recorded |
| ChatRuns.RespondKeepsTail | server.js:242-281 | one request keeps the caller's history the tail of the caller's transcript |
| ChatRuns.RunKeepsTail | server.js:188-281 | from process start, every caller's history is the tail of all turns recorded for that caller: at least the last 8 and at most 9, in order |
| ChatRuns.RunWellFormed | server.js:188-290 | from process start, every stored history is well formed whatever the requests |
| ChatService.NormalizeRows | server.js:168-176 | loading yields one entry per row, and every stored question is in lower case |
| ChatService.ChatServer.constructor | server.js:166-188 | the server starts with an empty knowledge base and an empty memory |
| ChatService.ChatServer.AddRow | server.js:170-175 | a `data` event appends the normalised row to `legalData` |
| ChatService.ChatServer.LoadRows | server.js:168-176 | streaming the table appends all its normalised rows, in order |
| ChatService.ChatServer.PushUserTurn | server.js:242-253 | the caller's history in place becomes the old history plus the user turn, cut to 8; nothing else changes; every stored history stays well formed |
| ChatService.ChatServer.AskGateway | server.js:242-289 | the in-place fallback path produces exactly the reply, status, memory and gateway input of `Fallback`, and every stored history stays well formed |
| ChatService.ChatServer.Resolve | server.js:193-290 | the handler updates `userMemory` in place to exactly what `Respond` gives, returns its reply and status, and keeps every history well formed |
| ChatScenarios.AcceptedAsIs | server.js:198-210 | a string of four or more characters without whitespace at its ends passes the guard unchanged |
| ChatScenarios.ShortWordIsJunk | server.js:198-210 | two or three ASCII letters, with any whitespace around them, get the "meaningful question" reply |
| ChatScenarios.AbIsJunk | server.js:206-210 | "ab" gets the "meaningful question" reply |
| ChatScenarios.HiIsJunk | server.js:198-210 | " hi\n" trims to "hi" and gets the "meaningful question" reply |
| ChatScenarios.ShortWordsRejected | server.js:198-210 | "ab" and " hi\n" are answered with the junk reply, memory unchanged, no gateway call |
| ChatScenarios.SingleCharacterTooShort | server.js:198-201 | one BMP character surrounded by whitespace gets the "valid question" reply |
| ChatScenarios.TooShortRejected | server.js:198-201 | "  a " and a missing field get the "valid question" reply, memory unchanged |
| ChatScenarios.DigitsAccepted | server.js:206 | "xyz123" passes the guard as it is |
| ChatScenarios.StoredQuestionAnswered | server.js:215-230 | a one-entry table asked its own lower-case question replies with answer + footer + reference |
| ChatScenarios.EmptyKnowledgeBase | server.js:215-240 | with an empty table every accepted message goes to the gateway, or gets "AI service unavailable." without one |
| ChatScenarios.NewCallerFailure | server.js:242-289 | a gateway failure for a new caller gives 500 and leaves the user turn alone in the caller's history |
| ChatScenarios.NineTurnsAfterSuccess | server.js:242-283 | a caller with 8 or more stored turns whose fallback succeeds is left with 9 |

## Left out

- Signup, login and forgot-password, the static pages, the Express set-up, the rate limiter and `multer` are left out. The model starts at the parsed `message` field and the caller address.
- CSV parsing and file streaming are left out. The table arrives as a sequence of rows whose cells are present or absent. The stream has only `data` and `end` listeners (server.js:168-179), so a missing or unreadable file raises an unhandled `error` event and the process exits; a read that fails part-way leaves a partial table and then exits. Neither is modelled. `legalData` is empty only for a table with no data rows, or for requests served before the first row arrives; `EmptyKnowledgeBase` covers both.
- The table loads asynchronously: `app.listen` (server.js:295) does not wait for the stream's `end`, so early requests can see a partial table. `Run` fixes one knowledge base for the whole run and does not model rows arriving between requests.
- The `string-similarity` score is not part of this model. It is the parameter `rate`, a real-valued function. `IsSimilarity` assumes only what the library documents: a range of [0, 1] and a score of 1 for equal strings. Floating-point rounding is not modelled.
- The Gemini client is left out: model name, system instruction, network, timeouts, and the shape of `contents` (role plus text parts). The gateway is a function from the history it receives to an outcome. A call that throws, and a `text()` that throws, are both `Failed`.
- Concurrency is left out. Two overlapping requests from one caller share the same history array across the `await`, and the model handles requests one at a time.
- Logging (`console.log`, `console.error`) is left out.
- Lower: maps only ASCII letters. `toLowerCase` also lower-cases other scripts, so non-ASCII questions may compare differently.
- Utf16Length: counts astral characters as two units. Lone surrogates cannot occur in a Dafny string and are not modelled.
- Screen: a truthy non-string `message` is modelled as a crash of `trim` (status 500). The kind of value (array, object, number) is not distinguished.
- The client page (`public/script.js`) and the test script (`test_chat.js`) are not part of this model.
