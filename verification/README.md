# German-law chat assistant: answer streaming and view logic

This project models the deterministic core of a Next.js chat assistant that answers questions about German law. The core has five parts.

- **Server framing.** The `PUT` handler of the query endpoint writes every non-empty `queryResult` the answer pipeline yields as one line of newline-delimited JSON. Each line is `JSON.stringify({ queryResult })` followed by `"\n"`, and the stream then closes or errors. If the request cannot be handled at all, the handler answers with a 500 and a fixed "high demand" text.
- **Client decoding.** Two submit handlers read that stream: `handleSubmit` of the `useChat` hook and an older copy in the `Chat` component. Each one works as a small sequential state machine:
  - a guard against blank input and a request already in flight;
  - an append of the user turn and an empty assistant placeholder;
  - per read: split on line feeds, drop empty pieces, skip lines that do not parse, and append each non-empty `queryResult` to an accumulator that replaces the last message;
  - a fixed fallback text on any failure;
  - the loading flag cleared at the end.

  The hook also records its `saveMessage` calls and the request it sends.
- **Round trip.** Framing followed by decoding yields the in-order concatenation of the non-empty fragments, for any grouping of whole lines into reads. A line cut across two reads is lost whenever neither half parses, wherever the cut falls (`StreamDecode.CutLineIsLost`). In particular, a written record cut after its first character is lost (`StreamDecode.CutRecordIsLost`).
- **Record mappers.** `formatDocs` and the `results || []` fallback of the law query service, and `formatMessages`, which normalises stored chat messages.
- **View decisions.**
  - The per-message render choice of the message list.
  - The message input's height cap, its height reset on submit, and its send-button rule.
  - The weather card: Fahrenheit-to-Celsius rounding, which forecast periods are shown, the unit toggle, the "show complete forecast" button, the precipitation default, and the loading / error / nothing / forecast precedence.

`JSON.stringify` and `JSON.parse` are modelled concretely for the values that appear here: string escaping as in section 7 of RFC 8259 (lower-case `\u00xx` for the other control characters, as ECMAScript's `JSON.stringify` writes it), and a parser for objects whose member values are strings. The round trip `ParseLine(Record(r))` is proved for every string `r`.

Modules, one per file:

| module | file | models |
|---|---|---|
| `Options` | options.dfy | `Option`, for values that may be absent |
| `Seqs` | seqs.dfy | string concatenation and flattening |
| `JsText` | js_text.dfy | ECMAScript `trim` and truthiness of strings |
| `Json` | json.dfy | `JSON.stringify` of a one-member object and `JSON.parse` of string-valued objects |
| `Messages` | messages.dfy | chat messages and `formatMessages` |
| `StreamDecode` | stream_decode.dfy | split / filter / parse / accumulate on the client |
| `QueryRoute` | query_route.dfy | the query endpoint's `PUT` and its stream |
| `Protocol` | protocol.dfy | the end-to-end round trip |
| `UseChat` | use_chat.dfy | `handleSubmit` of `useChat` |
| `LegacyChat` | legacy_chat.dfy | the older `Chat` component, its submit and view |
| `MessageList` | message_list.dfy | the message list's render decision |
| `MessageInput` | message_input.dfy | the message input |
| `QueryLaws` | query_laws.dfy | `formatDocs` and the structured-results fallback |
| `Weather` | weather.dfy | the weather card |

## Model

| member | source | states |
|---|---|---|
| Json.Escape | src/app/api/query/route.ts:18 | escaping a string leaves no character below U+0020 in the output, so no raw line feed, and never shortens it |
| Json.Quote | src/app/api/query/route.ts:18 | a quoted string starts with `"` and holds only characters at or above U+0020 |
| Json.RecordIsOneLine | src/app/api/query/route.ts:17-19 | for every `r`, the record `{"queryResult":…}` starts with `{"`, holds only characters at or above U+0020, and so contains no line feed |
| Json.EscapePlain | src/app/api/query/route.ts:18 | a string without quotes, backslashes or control characters is written unchanged |
| Json.StringRoundTrip | src/components/chat/hooks/useChat.ts:62 | parsing the escaped form of any string, followed by the closing quote, gives back that string and leaves the rest of the input untouched |
| Json.ParseQuoted | src/components/chat/hooks/useChat.ts:62 | parsing the quoted form of any string gives back that string and the remaining input |
| Json.ParseWrittenMember | src/components/chat/hooks/useChat.ts:62 | parsing `"k":"v"` as written gives back the member `(k, v)` |
| Json.SingleMemberRoundTrip | src/components/chat/hooks/useChat.ts:62 | parsing the written one-member object `{k: v}` gives back exactly that member |
| Json.RecordRoundTrip | src/app/api/query/route.ts:18 | parsing the line written for any `r` gives back exactly the member `queryResult = r` |
| Json.LookupFindsLast | src/components/chat/hooks/useChat.ts:62-63 | a key is found if and only if some member has it, and the value found is that of the last member with the key, as `JSON.parse` keeps the last duplicate |
| Json.LookupIsLastValue | src/components/chat/hooks/useChat.ts:62-63 | property access finds `v` if and only if `v` is the value of the last member with the key |
| Json.TwoMemberRoundTrip | src/components/chat/hooks/useChat.ts:62 | parsing a written two-member object `{k1: v1, k2: v2}` gives back both members, in order, even when the keys are equal |
| Json.RecordQueryResult | src/components/chat/hooks/useChat.ts:62-64 | reading `queryResult` from the parsed record gives back exactly the `r` that was written |
| JsText.TrimStart | src/components/chat/hooks/useChat.ts:17 | the result is a suffix of the input, the part removed is all whitespace, and the result does not start with whitespace |
| JsText.TrimEnd | src/components/chat/hooks/useChat.ts:17 | the result is a prefix of the input, the part removed is all whitespace, and the result does not end with whitespace |
| JsText.TrimEmptyIffBlank | src/components/chat/hooks/useChat.ts:17 | `trim()` gives the empty (falsy) string if and only if every character is ECMAScript whitespace |
| JsText.TrimKeepsMiddle | src/components/chat/hooks/useChat.ts:17 | what `trim()` keeps is the contiguous part of the input that starts where `trimStart` stops |
| JsText.TrimDropsWhitespace | src/components/chat/hooks/useChat.ts:17 | everything `trim()` drops, before and after the part it keeps, is whitespace |
| JsText.TrimEndsNotWhitespace | src/components/chat/hooks/useChat.ts:17 | a non-empty result of `trim()` neither starts nor ends with whitespace |
| Messages.ContentOf | src/components/chat/helpers/formatMessages.ts:3 | missing or empty content becomes "", and present non-empty content is copied unchanged |
| Messages.FormatMessages | src/components/chat/helpers/formatMessages.ts:1-6 | one message per record, in order, with the role copied unvalidated and the content defaulted |
| Messages.FormatStoredRoundTrip | src/components/chat/helpers/formatMessages.ts:2-5 | reading back stored messages gives exactly the role/content pairs, whatever extra fields the store added |
| StreamDecode.Split | src/components/chat/hooks/useChat.ts:58 | `split("\n")` gives at least one piece, and no piece holds a line feed |
| StreamDecode.JoinThenSplit | src/components/chat/hooks/useChat.ts:58 | splitting pieces joined by line feeds gives back the pieces |
| StreamDecode.SplitThenJoin | src/components/chat/hooks/useChat.ts:58 | joining the pieces of a split gives back the read, so splitting loses nothing |
| StreamDecode.NonEmpty | src/components/chat/hooks/useChat.ts:58 | `filter(Boolean)` keeps exactly the non-empty pieces and adds none |
| StreamDecode.NonEmptyAppend | src/components/chat/hooks/useChat.ts:58 | filtering a concatenation filters each part and concatenates the results, so order and repetitions are kept |
| StreamDecode.NonEmptySingle | src/components/chat/hooks/useChat.ts:58 | a single piece is kept if and only if it is non-empty |
| StreamDecode.LinesAreClean | src/components/chat/hooks/useChat.ts:58 | every line the client looks at is non-empty and holds no line feed |
| StreamDecode.LinesOfTerminated | src/components/chat/hooks/useChat.ts:58 | a read made of non-empty lines, each ended by a line feed, decodes into exactly those lines |
| StreamDecode.Fragment | src/components/chat/hooks/useChat.ts:61-63 | a line contributes a non-empty text only; a line that does not parse contributes nothing |
| StreamDecode.FragmentIsQueryResult | src/components/chat/hooks/useChat.ts:61-64 | a line contributes `v` if and only if it parses, `v` is the value of its last `queryResult` member, and `v` is non-empty |
| StreamDecode.LastDuplicateWins | src/components/chat/hooks/useChat.ts:62-63 | with `queryResult` written twice, the line contributes the second value |
| StreamDecode.DuplicateKeyExample | src/components/chat/hooks/useChat.ts:62-63 | the line `{"queryResult":"a","queryResult":"b"}` contributes `b` |
| StreamDecode.FragmentOfRecord | src/components/chat/hooks/useChat.ts:62-63 | the line written for a non-empty `r` contributes exactly `r` |
| StreamDecode.ReplaceLast | src/components/chat/hooks/useChat.ts:65-72 | the last message is replaced and all earlier ones are kept |
| StreamDecode.ApplyLine | src/components/chat/hooks/useChat.ts:60-76 | a line without a fragment (including one that fails to parse) changes nothing; otherwise the accumulator grows by the fragment and the last message becomes the accumulator |
| StreamDecode.ApplyLineKeepsShowing | src/components/chat/hooks/useChat.ts:60-76 | one line keeps the last message equal to the assistant turn holding the accumulator, keeps the length and leaves earlier messages untouched |
| StreamDecode.ApplyLinesKeepsShowing | src/components/chat/hooks/useChat.ts:60-77 | after any run of lines, the accumulator is the old one plus their fragments in order, and the last message shows it |
| StreamDecode.ApplyReadsKeepsShowing | src/components/chat/hooks/useChat.ts:53-78 | after any sequence of reads, the accumulator is the in-order concatenation of every fragment read, the last message shows it, and earlier messages are untouched |
| StreamDecode.CutLineIsLost | src/components/chat/hooks/useChat.ts:57-58 | when a line is cut between two reads at any point and neither half parses, its fragment is lost, though the whole line would deliver it |
| StreamDecode.CutRecordIsLost | src/components/chat/hooks/useChat.ts:57-58 | cutting any written record after its first character loses its fragment |
| QueryRoute.Fragments | src/app/api/query/route.ts:15-16 | the fragments of a run are non-empty, and there are no more of them than chunks |
| QueryRoute.FramedAppend | src/app/api/query/route.ts:17-19 | framing each fragment on its own line distributes over appending runs of fragments |
| QueryRoute.EncodeIsFramed | src/app/api/query/route.ts:15-21 | the lines enqueued are, one for one and in order, the framed non-empty results, and nothing else |
| QueryRoute.EncodeAppend | src/app/api/query/route.ts:15-21 | one more chunk adds exactly one line if its result is non-empty and none otherwise, leaving earlier lines as they were |
| QueryRoute.Pump | src/app/api/query/route.ts:15-21 | the loop's events are the enqueues of the encoded lines, in order |
| QueryRoute.Start | src/app/api/query/route.ts:15-25 | all lines come first, then exactly one terminal event: close after a finished run, error after a run that threw, and never an extra data line |
| QueryRoute.FrameIsOneLine | src/app/api/query/route.ts:17-19 | every enqueued line ends with a line feed and holds no other |
| QueryRoute.Put | src/app/api/query/route.ts:7-43 | an unreadable body gives a 500 with the high-demand text; otherwise the response is an event stream of the pipeline run on the query and history as sent |
| Protocol.LinesOfFramed | src/components/chat/hooks/useChat.ts:58 | decoding the concatenated framed lines gives exactly the records, one per fragment |
| Protocol.TextOfRecords | src/components/chat/hooks/useChat.ts:62-64 | the records of non-empty fragments decode to the fragments' concatenation |
| Protocol.ReadsOfFramed | src/components/chat/hooks/useChat.ts:53-58 | however the framed lines are grouped into reads that cut no line, splitting and filtering the reads gives back exactly the records, in order |
| Protocol.RoundTripFragments | src/components/chat/hooks/useChat.ts:53-64 | however the framed lines are grouped into whole-line reads, decoding yields the concatenation of the fragments |
| Protocol.RoundTrip | src/app/api/query/route.ts:15-21 | framing a run and decoding it over any whole-line grouping of reads yields the in-order concatenation of its non-empty results |
| UseChat.WithFallback | src/components/chat/hooks/useChat.ts:82-88 | the fallback replaces the last turn with the fixed text and keeps every earlier turn; on an empty list it adds that one turn |
| UseChat.Settle | src/components/chat/hooks/useChat.ts:32-88 | settling sends nothing, leaves the input and the loading flag alone, and saves one answer exactly when the reply does not fail |
| UseChat.Finish | src/components/chat/hooks/useChat.ts:89-91 | the `finally` turns loading off and changes nothing else |
| UseChat.Submit | src/components/chat/hooks/useChat.ts:16-92 | the state changes if and only if the guard lets the submit through, and then exactly one request is sent |
| UseChat.SubmitPassesGuard | src/components/chat/hooks/useChat.ts:17 | input that is not blank, with nothing loading, passes the guard |
| UseChat.GuardedSubmitChangesNothing | src/components/chat/hooks/useChat.ts:17 | with blank input or a response loading, submit changes nothing, sends nothing and saves nothing |
| UseChat.BeginShows | src/components/chat/hooks/useChat.ts:20-25 | right after the append, the last message is the assistant turn with the empty accumulator |
| UseChat.SettleKeepsEarlierTurns | src/components/chat/hooks/useChat.ts:32-88 | whatever the reply, only the placeholder changes, it stays the assistant's, and saves are only appended |
| UseChat.SubmitStartsExchange | src/components/chat/hooks/useChat.ts:18-43 | a started submit sends one request with the pre-clear input and the pre-append history, appends exactly the user turn and an assistant turn, keeps earlier messages, clears the input, saves the user turn first, and ends not loading |
| UseChat.LoadingUntilFinally | src/components/chat/hooks/useChat.ts:18 | loading is on from the first step through the settling and off after the `finally`, for every reply |
| UseChat.SubmitShowsAnswer | src/components/chat/hooks/useChat.ts:49-80 | on success the new assistant turn is the concatenation of every fragment read, and the saves are the user turn then that answer |
| UseChat.SubmitFallsBack | src/components/chat/hooks/useChat.ts:81-88 | on a rejected fetch, a non-OK status or a read that throws, the last turn is exactly the fallback text, the count is unchanged, and no answer is saved |
| UseChat.SubmitWithoutBody | src/components/chat/hooks/useChat.ts:49-80 | an OK response without a body leaves the empty placeholder and saves an empty answer |
| UseChat.RequestReachesPipeline | src/components/chat/hooks/useChat.ts:38-42 | the request sent reaches the pipeline as the submitted text with the history before the new turns |
| UseChat.ExchangeShowsPipelineAnswer | src/components/chat/hooks/useChat.ts:53-80 | end to end: when the pipeline finishes and reads carry whole lines, the new assistant turn is the concatenation of the non-empty results it yielded |
| LegacyChat.Settle | src/components/chat.tsx:33-85 | settling sends nothing and leaves the input and the loading flag alone |
| LegacyChat.Submit | src/components/chat.tsx:18-89 | the state changes if and only if the guard lets the submit through, and then exactly one query is sent |
| LegacyChat.SubmitPassesGuard | src/components/chat.tsx:20 | input that is not blank, with nothing loading, passes the guard |
| LegacyChat.GuardedSubmitChangesNothing | src/components/chat.tsx:20 | blank input or a request in flight makes submit a no-op |
| LegacyChat.SettleKeepsEarlierTurns | src/components/chat.tsx:33-85 | whatever the reply, only the placeholder changes, and it stays the assistant's |
| LegacyChat.SubmitStartsExchange | src/components/chat.tsx:24-40 | a started submit appends the user turn and an assistant turn, keeps earlier messages, clears the input, sends the query alone, and ends not loading |
| LegacyChat.QueryReachesPipelineWithoutHistory | src/components/chat.tsx:39 | the body carries only the query, so the pipeline runs with no history |
| LegacyChat.SubmitShowsAnswer | src/components/chat.tsx:46-76 | on success the last turn is the concatenation of every fragment read |
| LegacyChat.SubmitFallsBack | src/components/chat.tsx:77-85 | on any failure the last turn is exactly the fallback text and the count is unchanged |
| LegacyChat.SubmitWithoutBody | src/components/chat.tsx:46-50 | an OK response without a body leaves the empty placeholder |
| LegacyChat.View | src/components/chat.tsx:93-119 | an empty conversation shows the about card; any other shows one bubble per message, decided as in the message list |
| LegacyChat.SendDisabled | src/components/chat.tsx:136 | the button is disabled exactly for blank input |
| LegacyChat.StartedConversationShowsLink | src/components/chat.tsx:140 | after any started submit the about card is gone and the GenUI link shows |
| LegacyChat.EnabledSendStartsUnlessLoading | src/components/chat.tsx:20 | with the button enabled, submit is a no-op exactly while a request is in flight |
| MessageList.RenderMessage | src/components/messageList/MessageList.tsx:30-43 | user style if and only if the role is user; markdown if and only if an assistant turn has content; the loading indicator if and only if it is empty and a response is loading; nothing if it is empty otherwise; plain text for any other role |
| MessageList.RenderAll | src/components/messageList/MessageList.tsx:28-29 | one bubble per message, in list order |
| MessageList.Render | src/components/messageList/MessageList.tsx:17-24 | the spinner if and only if messages are being fetched, whatever the list; otherwise the bubbles of the list, an absent list counting as empty |
| MessageList.StreamingBubble | src/components/messageList/MessageList.tsx:35-40 | while an answer streams in, its bubble shows the loading indicator until the first fragment, then the accumulated text as markdown |
| MessageInput.Clamp | src/components/messageInput/MessageInput.tsx:28 | the height is the content height when that is at most 200, and 200 otherwise |
| MessageInput.Step | src/components/messageInput/MessageInput.tsx:23-36 | one event leaves the height within 200 and makes exactly one call to the parent, the submit call exactly for a submit |
| MessageInput.HeightStaysCapped | src/components/messageInput/MessageInput.tsx:23-36 | over any events the height stays within 200; each event makes exactly one call to the parent, forwarding typed values unchanged; the height after a submit is 40 |
| MessageInput.SendDisabled | src/components/messageInput/MessageInput.tsx:53-55 | disabled if and only if the input is blank, a response is loading, or messages are being fetched |
| MessageInput.EnabledSendStartsExchange | src/components/messageInput/MessageInput.tsx:53-55 | with the button enabled, the hook's submit passes its guard and sends exactly one request |
| MessageInput.IgnoredSubmitHasDisabledSend | src/components/messageInput/MessageInput.tsx:53-55 | whenever the hook would ignore a submit, the button is already disabled |
| QueryLaws.OrNull | src/lib/services/queryLaws.ts:20-21 | a missing or empty value becomes null; any other is copied unchanged |
| QueryLaws.FormatDoc | src/lib/services/queryLaws.ts:19-24 | the text is the page content unchanged; abbreviation and title become null when missing or empty, and missing tags become the empty list |
| QueryLaws.FormatDocs | src/lib/services/queryLaws.ts:18-25 | one record per document, in order |
| QueryLaws.FormatDocsIdempotent | src/lib/services/queryLaws.ts:18-25 | formatting the records again, read back as documents, gives the same records |
| QueryLaws.FormatIgnoresOtherMetadata | src/lib/services/queryLaws.ts:19-24 | other metadata fields do not affect the record |
| QueryLaws.OrEmpty | src/lib/services/queryLaws.ts:106 | absent structured results (and, in `FormatDoc`, absent tags) become the empty list, and a present list is kept as it is, even when empty |
| Weather.ToCelsius | src/components/weather.tsx:111-113 | the result lies strictly within half a degree of 5(F-32)/9 |
| Weather.CelsiusIsNearest | src/components/weather.tsx:111-113 | any integer strictly within half a degree of 5(F-32)/9 is the result, so the rounding never meets a tie |
| Weather.CelsiusMonotone | src/components/weather.tsx:111-113 | a higher Fahrenheit value never gives a lower Celsius value |
| Weather.CelsiusLandmarks | src/components/weather.tsx:111-113 | 32 maps to 0, 212 to 100, and -40 to -40 |
| Weather.PrecipitationShown | src/components/weather.tsx:176-178 | null shows 0, a number shows itself, and an absent value shows nothing |
| Weather.HandleClick | src/components/weather.tsx:102-105 | the click shows the full forecast with `forecastDays` 8 and changes nothing else |
| Weather.HandleConvert | src/components/weather.tsx:107-109 | the toggle flips the unit and changes nothing else |
| Weather.ConvertIsInvolution | src/components/weather.tsx:107-109 | the toggle flips the unit, changes nothing else, and two toggles restore the state |
| Weather.Shown | src/components/weather.tsx:152-155 | the shown indices are exactly those below the period count that are even and below `forecastDays`, in increasing order |
| Weather.ShownInitially | src/components/weather.tsx:43 | with the initial `forecastDays` of 2, exactly period 0 is shown |
| Weather.ShownAfterClick | src/components/weather.tsx:102-105 | with `forecastDays` 8 and at least eight periods, exactly periods 0, 2, 4 and 6 are shown |
| Weather.Rows | src/components/weather.tsx:152-168 | one row per shown index, in order, each rendering that period |
| Weather.StartFetch | src/components/weather.tsx:50-52 | the effect starts with loading on and the error cleared, changing nothing else |
| Weather.SettleFetch | src/components/weather.tsx:79-88 | loading ends; a success stores the forecast and nothing else; a failure keeps the old forecast and stores the thrown message, or the generic text for a thrown non-error |
| Weather.Render | src/components/weather.tsx:115-133 | loading wins over everything; otherwise a non-empty error shows as an error; otherwise nothing shows exactly when there is no forecast, and the forecast card shows its rows when there is one |
| Weather.FetchRendersOutcome | src/components/weather.tsx:48-92 | loading shows during a fetch; afterwards the card shows the forecast, the thrown message, or the generic failure text |
| Weather.FirstForecastShowsOnePeriod | src/components/weather.tsx:41-43 | the first forecast shows only its first period, with the expand button |
| Weather.ClickExpandsForecast | src/components/weather.tsx:102-105 | after the click, a forecast of at least eight periods shows periods 0, 2, 4 and 6, without the button |
| Weather.ConvertChangesTemperatures | src/components/weather.tsx:165-168 | switching to Celsius changes each shown temperature to its conversion and nothing else about the rows |

## Left out

- Network, persistence and foreign calls are not modelled. These are the `fetch` calls, Prisma, the LangChain retriever and chain, OpenAI, Weaviate and the weather services. Their outcomes are inputs:
  - a `Reply` for the query request (rejected, non-OK, no body, or the reads with whether reading threw);
  - a `PipelineRun` for the answer pipeline;
  - a `FetchOutcome` for the weather requests.
- The answer pipeline is an opaque sequence of chunks plus how it ended. The route iterates it as an async generator that receives the history, while `QueryLaws` as written takes one argument and returns a promise; the route's usage is followed.
- There is no history truncation or prompt assembly, because none exists in the code. The code is followed over any description of it.
- `saveMessage` is recorded as a call. It returns early without a session id and catches every error, so it never changes the flow.
- `TextDecoder` is left out: reads are modelled as strings. A multi-byte character split across reads is not modelled.
- Lines cut across reads are dropped by the client, as the code does; the model does not buffer. `StreamDecode.CutLineIsLost` states the loss for a cut at any point where neither half parses. `StreamDecode.CutRecordIsLost` states it for a written record only when the cut falls after its first character.
- Json.ParseLine: models `JSON.parse` only for objects whose member values are strings. A line holding any other JSON value counts as one that fails to parse. In the code, a line with a string `queryResult` and any non-string member, such as `{"queryResult":"a","n":1}`, contributes its text; in the model it contributes nothing. The route never writes such a line.
- `Json.Unescape` rejects `\u` escapes of surrogate code units, because a Dafny `char` is a Unicode scalar value. `JSON.stringify` never writes them for well-formed strings.
- `QueryLaws.OrNull` takes string fields only. Falsy non-string metadata values such as `0` or `false` also become null in the code; `Option<string>` cannot express them.
- `Messages.ContentOf` takes string content only, so falsy non-string content is not represented. A record whose `role` is missing is not represented either.
- React is left out: state batching, effects, refs and re-renders. State updates are applied in program order.
- `Weather.ToCelsius` takes whole-degree temperatures; fractional temperatures are not modelled. `toLocaleDateString` is not modelled either.
- Response headers other than the content type (`Cache-Control`, `Connection`) are not modelled.
- `src/constants/roles.ts` is not part of this model. The roles are taken to be "user" and "assistant", the literals the older component uses.
- `src/types/companies.ts` is not part of this model. A `QueryResult` item is taken to have the fields the structured-output prompt asks for.
