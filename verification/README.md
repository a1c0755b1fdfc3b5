# fastprotocol-chat-ai: the chat core, modelled in Dafny

The repository holds a small Next.js chat assistant for notaries. The browser page keeps a
conversation and posts each new message, with the earlier turns, to a server route. The route
builds a prompt around a fixed index of legal document templates, asks a completion service for
an answer, and returns that answer. With the answer it returns the citation markers the answer
contains, written `[Doc <id>: <nombre>]`. The page shows each marker inside the text as a link,
and it lists the cited documents under the message.

This project models four pieces of that core as pure functions over immutable datatypes:

- **The citation-marker grammar** (module `Markers`). The global regular expression
  `/\[Doc (\d+):\s*([^\]]+)\]/g` and its `exec` loop are written as an explicit scanner.
  - `MatchAt` is one attempt at one position.
  - `NextMatch` is one `exec` call from `lastIndex`.
  - `Scan` is the whole loop.
  - `MarkerShape` states the same grammar declaratively, and `LeftmostScan` states the same
    scan declaratively.
  - The scanner is proved to meet both, and `LeftmostScan` is proved to pin the result down.
- **The route's parser and handler** (modules `Citations`, `ChatRoute`).
  - `extraerDocumentosReferenciados` is modelled as a loop and as the function `ParseMarkers`.
  - `POST` is modelled as `Post`. It takes the parsed body and the completion service's
    outcome as inputs. It returns the completion request it would send, if it gets that far,
    and the response it gives.
- **The message view** (module `ChatMessageView`).
  - `procesarContenido` splits a text into plain segments and link segments.
  - A listed document gets a link target.
  - The list appears only when there are documents.
- **The client's state changes**:
  - module `ChatInputBox` models the input box's submit guard, the Enter key and the
    button's disabled state;
  - module `ChatPage` models the page's `enviarMensaje` and `limpiarChat` as transitions of
    the message list and the loading flag.

The module `Conversation` joins the pieces:

- whatever the input box sends passes the route's validation;
- the page's request reaches the completion service in the intended order;
- every non-200 answer from the route is shown as the page's fixed apology, because the page
  checks `response.ok` before it reads the body's `error`, so the route's error messages never
  reach the user;
- the links in an answer pair up one to one with the documents the route reported for it.

Shared helpers live in `Text`: the ECMAScript whitespace set used by both `\s` and `trim`,
`trim` itself, ASCII digits, `parseInt` on a digit run, and decimal printing. The records of
`lib/types.ts` live in `Types`.

## Model

| member | source | states |
|---|---|---|
| Types.History | app/chat/page.tsx:84-87 | the `historial` sent has one entry per message, in order, each holding only the message's role spelling and its content |
| Types.RoleName | lib/types.ts:5 | the wire spelling is `user` exactly for the user's role and `assistant` exactly for the assistant's |
| Text.TrimCharacterization | components/ChatInput.tsx:15 | `trim` returns a piece of its input that neither starts nor ends with whitespace, and everything it drops on either side is whitespace |
| Text.TrimIdempotent | components/ChatInput.tsx:15 | trimming an already trimmed text changes nothing |
| Text.TrimOfPadded | app/api/chat/route.ts:121 | whatever whitespace margins surround a trimmed core, `trim` returns exactly that core |
| Text.Trim | components/ChatInput.tsx:15 | no contract of its own; specified by `Text.TrimCharacterization`, `Text.TrimOfPadded` and `Text.TrimIdempotent` |
| Text.DecimalValue | app/api/chat/route.ts:120 | no contract of its own; specified by `Text.DecimalRoundTrip` and `Text.DecimalIgnoresLeadingZero` |
| Text.NatToDecimal | components/ChatMessage.tsx:94 | the spelling of an id is a non-empty digit run that starts with `0` only for zero; reading it back is `Text.DecimalRoundTrip` |
| Text.DecimalRoundTrip | components/ChatMessage.tsx:94 | the decimal spelling of an id, read back as a decimal number, gives the id |
| Text.DecimalIgnoresLeadingZero | app/api/chat/route.ts:120 | a leading zero does not change the number a digit run is read as |
| Markers.MatchAtSound | app/api/chat/route.ts:115 | an attempt that succeeds at `p` is a match of the regular expression: `[Doc `, a digit run, `:`, a stretch free of `]`, then `]` |
| Markers.MatchAtComplete | app/api/chat/route.ts:115 | whenever the regular expression matches at `p`, the attempt at `p` succeeds with exactly that colon and end |
| Markers.NoMatchFromMatchAt | app/api/chat/route.ts:115 | where every attempt fails, the regular expression matches nowhere |
| Markers.NextMatchLeftmost | app/api/chat/route.ts:118 | one `exec` call returns the attempt at the leftmost position where one succeeds; it returns null only when every attempt up to the end of the text fails |
| Markers.NameCapture | app/api/chat/route.ts:115 | the group-2 capture is a non-empty suffix of the stretch between colon and `]`, everything before it in that stretch is whitespace, and it starts with a non-space unless it is a single character |
| Markers.MatchAt | app/api/chat/route.ts:115 | a success starts at the attempted position and is a well-formed span; the rest is specified by `Markers.MatchAtSound` and `Markers.MatchAtComplete` |
| Markers.NextMatch | app/api/chat/route.ts:118 | a match found starts at or after `lastIndex` and is a well-formed span; the rest is specified by `Markers.NextMatchLeftmost` |
| Markers.Scan | app/api/chat/route.ts:118 | no contract of its own; specified by `Markers.ScanSucceeds`, `Markers.ScanOrdered`, `Markers.ScanIsLeftmost` and `Markers.LeftmostScanUnique` |
| Markers.ScanSucceeds | app/api/chat/route.ts:118 | each match of the loop is an attempt that succeeded at or after the position the loop started from |
| Markers.ScanOrdered | app/api/chat/route.ts:118 | the loop's matches come left to right and do not overlap |
| Markers.ScanIsLeftmost | app/api/chat/route.ts:115-118 | the loop's matches are the reference global scan: each is the leftmost success after the previous match's end |
| Markers.LeftmostScanUnique | app/api/chat/route.ts:115-118 | exactly one list of matches meets the reference scan, and it is the loop's |
| Markers.LoneMarkerScan | app/api/chat/route.ts:115 | a text that is one marker is matched as a whole, with the digits and the name stretch in their places, and nothing follows it |
| Citations.NameIsTrimmedTail | app/api/chat/route.ts:121 | the trimmed name capture equals the trim of the whole stretch between colon and `]`, so the backtracking of `\s*` never shows in a record |
| Citations.MarkerOf | app/api/chat/route.ts:119-122 | no contract of its own; specified by `Citations.RecordMeaning` |
| Citations.ParseMarkers | app/api/chat/route.ts:113-126 | no contract of its own; specified by `Citations.ParseMarkersMeaning`, `Citations.NoMarkersIff` and `Citations.ExtraerDocumentosReferenciados` |
| Citations.RecordMeaning | app/api/chat/route.ts:119-121 | a record's id is the decimal value of the digits as written, and its name is the trimmed stretch between colon and `]`, which holds no `]` |
| Citations.ParseMarkersMeaning | app/api/chat/route.ts:113-126 | there is one record per match of the reference scan, in left-to-right order, without overlap and with duplicates kept, and each record is read as `RecordMeaning` states |
| Citations.NoMarkersIff | app/api/chat/route.ts:115-118 | parsing yields no record exactly when the regular expression matches at no position |
| Citations.MalformedBracketsYieldNothing | app/api/chat/route.ts:115-118 | if every `[Doc ` has a non-digit id, no colon after the digits, nothing between colon and `]`, or no `]`, then parsing yields the empty list and no error |
| Citations.NonDigitIdExample | app/api/chat/route.ts:115 | `[Doc X: foo]` yields no record |
| Citations.EmptyNameExample | app/api/chat/route.ts:115 | `[Doc 5:]` yields no record |
| Citations.UnterminatedYieldsNothing | app/api/chat/route.ts:115-118 | a text without any `]` yields no record |
| Citations.LoneMarker | app/api/chat/route.ts:115-121 | a text that is one marker yields exactly one record: the digits' value and the trimmed name |
| Citations.InnerOpenSwallowed | app/api/chat/route.ts:115-121 | a `[Doc ` inside a name, as in `[Doc 1: a [Doc 2: b]`, is swallowed: one record, whose name holds the inner opening |
| Citations.BlankName | app/api/chat/route.ts:119-121 | a name made only of whitespace, as in `[Doc 5:   ]`, still gives a record, whose name is empty |
| Citations.ExtraerDocumentosReferenciados | app/api/chat/route.ts:113-126 | the `exec` loop returns exactly the parsed records of the text |
| ChatRoute.SystemPromptHasIndex | app/api/chat/route.ts:57-73 | the first message has role `system`, and its content embeds the whole document index |
| ChatRoute.SystemPromptHasFormat | app/api/chat/route.ts:67 | the system prompt spells out the citation format `[Doc ID: nombre]` |
| ChatRoute.CitationFormatIsNotAMarker | app/api/chat/route.ts:67 | the format as spelled in the prompt is not itself a citation: it parses to no record |
| ChatRoute.ItemTurns | app/api/chat/route.ts:74-77 | mapping the history succeeds exactly when every element can be read, and then keeps each element's role and content in order; otherwise it fails with the error of the first element that cannot be read |
| ChatRoute.HistoryTurns | app/api/chat/route.ts:74-77 | a `historial` that is not an array fails with that value's own error. An array succeeds exactly when every element can be read, keeping each turn in order. Otherwise it fails with the error of the first element that cannot be read |
| ChatRoute.Respuesta | app/api/chat/route.ts:92 | the answer text is never empty: it is the completion's text when that is non-empty, and the placeholder when the text is null or empty |
| ChatRoute.BuildMessages | app/api/chat/route.ts:57-82 | no contract of its own; specified by `ChatRoute.PostRequest` |
| ChatRoute.Post | app/api/chat/route.ts:45-110 | no contract of its own; specified by `ChatRoute.PostRejectsInvalid`, `ChatRoute.PostRequest`, `ChatRoute.PostAnswers`, `ChatRoute.PostFailures` and `ChatRoute.PostStatuses` |
| ChatRoute.PostRejectsInvalid | app/api/chat/route.ts:49-54 | the route answers 400 `Mensaje inválido` exactly when `mensaje` is missing, empty or not a string, and then requests no completion |
| ChatRoute.PostRequest | app/api/chat/route.ts:57-90 | a completion is requested exactly when validation and the history mapping pass. It asks `gpt-4o-mini` at temperature 0.7 with at most 400 tokens. Its messages are the system prompt, each prior turn in order with only role and content, and the user's message last |
| ChatRoute.PostAnswers | app/api/chat/route.ts:92-101 | a completion that comes back is answered with 200. The answer holds the text (or the placeholder), the records parsed from that same text, and the usage unchanged |
| ChatRoute.PostFailures | app/api/chat/route.ts:103-108 | each thrown failure gives 500 `Error al procesar la solicitud` with the failure's message as details: an unreadable body, a non-array history, the first unreadable history element, or a failed completion. Nothing else gives 500 |
| ChatRoute.PostStatuses | app/api/chat/route.ts:45-110 | the route answers only 200, 400 or 500, and it answers 200 exactly when it answers with a reply |
| ChatMessageView.Parts | components/ChatMessage.tsx:18-52 | no contract of its own; specified by `ChatMessageView.PartsReconstruct`, `ChatMessageView.NoEmptyText`, `ChatMessageView.LinksAreSpans` and `ChatMessageView.LinksAreRecords` |
| ChatMessageView.ProcesarContenido | components/ChatMessage.tsx:12-55 | no contract of its own; specified by `ChatMessageView.Reconstruct`, `ChatMessageView.PlainOnlyWhenEmpty`, `ChatMessageView.LinksAreSpans` and `ChatMessageView.LinksMatchParser` |
| ChatMessageView.PartsReconstruct | components/ChatMessage.tsx:18-52 | concatenating, in order, the plain segments and the matched marker texts gives back the text exactly |
| ChatMessageView.Reconstruct | components/ChatMessage.tsx:12-55 | `procesarContenido` never loses or reorders text, whichever of its two results it returns |
| ChatMessageView.NoEmptyText | components/ChatMessage.tsx:20-51 | no plain segment is empty |
| ChatMessageView.PlainOnlyWhenEmpty | components/ChatMessage.tsx:46-54 | the text itself comes back instead of a segment list exactly when the text is empty |
| ChatMessageView.LinksAreSpans | components/ChatMessage.tsx:18-42 | there is one link per match of the scan, in order, and link j is built from match j: the digits exactly as written, leading zeros kept (its `href` is `#doc-` followed by them), the raw group-2 capture untrimmed as its label, and the matched marker text |
| ChatMessageView.LinksAreRecords | components/ChatMessage.tsx:13-42 | the view's links pair up one to one, in order, with the route's records for the same text. Each link's digits read as the record's id, and its raw name trims to the record's name |
| ChatMessageView.LinksMatchParser | components/ChatMessage.tsx:12-55 | for a whole message, the link list and the route's `documentos` agree in number, order, id and trimmed name |
| ChatMessageView.LoneMarkerParts | components/ChatMessage.tsx:28-42 | a lone marker `[Doc d:` w n `]`, where w is whitespace (possibly none) and the name n starts with a non-space, renders as a single link. The link holds the digits as written and n as its label: the spaces `\s*` takes are dropped, n's trailing spaces are kept. This covers the prompt's own form `[Doc 5: Contrato]` |
| ChatMessageView.LoneMarkerLink | components/ChatMessage.tsx:29-38 | for the same text, with or without spaces after the colon, the link keeps leading zeros and the name's trailing spaces, while the route's record has the numeric id and the trimmed name |
| ChatMessageView.DocHref | components/ChatMessage.tsx:94 | no contract of its own; specified by `ChatMessageView.DocHrefFallback` |
| ChatMessageView.DocumentList | components/ChatMessage.tsx:85-99 | no contract of its own; specified by `ChatMessageView.DocumentListShape` |
| ChatMessageView.DocHrefFallback | components/ChatMessage.tsx:94 | a document's link is its URL when that is a non-empty string. Otherwise it is `#doc-` followed by the id in decimal, which reads back as the id |
| ChatMessageView.DocumentListShape | components/ChatMessage.tsx:85-99 | the document list shows exactly when `documentos` is present and non-empty, with one entry per document in order, captioned with its name |
| ChatInputBox.HandleSubmit | components/ChatInput.tsx:14-20 | no contract of its own; specified by `ChatInputBox.SubmitSpec` and `ChatInputBox.SentIsTrimmed` |
| ChatInputBox.HandleKeyDown | components/ChatInput.tsx:22-27 | no contract of its own; specified by `ChatInputBox.KeySpec` |
| ChatInputBox.ButtonDisabled | components/ChatInput.tsx:43 | no contract of its own; specified by `ChatInputBox.ButtonDisabledIffNoSend` |
| ChatInputBox.SubmitSpec | components/ChatInput.tsx:14-20 | submitting sends the trimmed text exactly when it is non-empty and the box is enabled, and then clears the box; otherwise nothing is sent and the box keeps its text |
| ChatInputBox.SentIsTrimmed | components/ChatInput.tsx:15-17 | what is sent is non-empty, trimmed, and sits in the typed text between whitespace margins |
| ChatInputBox.KeySpec | components/ChatInput.tsx:22-27 | Enter without Shift prevents the new line and submits; every other key, Shift+Enter included, does neither |
| ChatInputBox.ButtonDisabledIffNoSend | components/ChatInput.tsx:43 | the button is disabled exactly when clicking it would send nothing |
| ChatInputBox.BlankNeverSent | components/ChatInput.tsx:15-16 | a text of whitespace only is never sent, and the button stays disabled for it |
| ChatPage.ErrorText | app/chat/page.tsx:102 | no contract of its own; specified by `ChatPage.ErrorTextRoundTrip` |
| ChatPage.Reply | app/chat/page.tsx:71-132 | no contract of its own; specified by `ChatPage.ReplyCases` |
| ChatPage.EnviarMensaje | app/chat/page.tsx:55-136 | no contract of its own; specified by `ChatPage.SendAppendsTwo`, `ChatPage.LoadingLifecycle`, `ChatPage.RequestSpec` and `ChatPage.ReplyCases` |
| ChatPage.LimpiarChat | app/chat/page.tsx:138-143 | no contract of its own; specified by `ChatPage.LimpiarChatSpec` |
| ChatPage.ErrorTextRoundTrip | app/chat/page.tsx:98-107 | an error reply's text starts with `❌ ` and the error. It ends with the retry request when `retry` is set. The details can be read back from between the two |
| ChatPage.SendAppendsTwo | app/chat/page.tsx:64-132 | every send keeps the earlier messages, then appends the user's message and exactly one assistant message, whatever the outcome |
| ChatPage.LoadingLifecycle | app/chat/page.tsx:65-134 | `cargando` is set while the request is in flight and cleared after any outcome |
| ChatPage.RequestSpec | app/chat/page.tsx:69-88 | a request is made exactly when a token is stored. It sends the new text as `mensaje`, and the conversation before the new message, projected to role and content, as `historial` |
| ChatPage.ReplyCases | app/chat/page.tsx:71-132 | the apology is shown for no token, a network failure, a reply that is not ok, or a body that is not JSON or is JSON `null`. A truthy `error` gives the formatted error text. Otherwise `respuesta` is shown with its documents |
| ChatPage.LimpiarChatSpec | app/chat/page.tsx:138-143 | clearing empties the conversation only when confirmed, otherwise changes nothing, and never touches the loading flag |
| Conversation.SentTextIsValid | app/api/chat/route.ts:49 | any text the input box sends passes the route's `mensaje` check |
| Conversation.NoSendWhileLoading | components/ChatInput.tsx:16 | while a send is in flight the button is disabled and submitting sends nothing |
| Conversation.PageBody | app/chat/page.tsx:82-88 | the route reads the page's body as a string `mensaje` and an array of readable turns, one per earlier message |
| Conversation.SendReachesCompletion | app/chat/page.tsx:82-88 | a non-empty text sent with a token reaches the completion service. The messages are the system prompt, the earlier conversation (role and content) in order, and the text as the user's turn |
| Conversation.RouteErrorShowsApology | app/chat/page.tsx:91-92 | any non-200 answer of the route, the 400 and the 500 alike, ends the send with the fixed apology, because the page checks `ok` before it reads the body's error |
| Conversation.RouteAnswerShown | app/chat/page.tsx:110-119 | a 200 from the route is shown as the reply text, with the route's records as the message's documents |
| Conversation.AnswerLinksMatchDocuments | components/ChatMessage.tsx:85-99 | such a message shows its document list exactly when its text cites something. Its links pair up with those documents in order, by id and trimmed name |

## Left out

- The completion service (the OpenAI client and its `create` call) is not called. Its outcome is an input of `ChatRoute.Post`: a text or null with the usage (absent when the service reports none, and then the 200 body has no `usage`), or a thrown error with its message. The request it would receive is reported instead.
- `req.json()`, `NextResponse` and the Edge runtime are represented by datatypes. The parsed body is `ChatRoute.Body`, and the response is a status with `ChatRoute.ResponseBody`.
- JSON values other than strings are collapsed into one case. A `mensaje` that is a number, boolean, object, array or null is `NonString`. A `historial` element is either a readable object or a null/undefined one.
- The page reads `error` and `details` as strings. Truthy non-string values (numbers, objects) would be interpolated into the error text by JavaScript's string conversion, which is not modelled.
- Non-string `role`/`content` values in a history element are not modelled. The route copies them as they are, and the model's turns hold strings.
- The engine's error messages (`TypeError` texts, JSON syntax errors) are inputs. The model keeps only the fact that the message becomes `details`.
- A thrown value without a `message` property would leave `details` out of the 500 body. The model always carries a message.
- `fetch`, the `Authorization` header, localStorage (loading, saving and clearing the stored history and the token) and reading the token from the URL are I/O. A send takes as inputs whether a token is stored and what the fetch yields.
- Message ids, timestamps and their formatting are left out. They come from the clock and take part in no decision.
- JSX markup, CSS classes, scrolling, the minimize toggle and the spinner are presentation. The link's `title` (`Ver ` and the raw name) is not modelled; the link segment keeps the raw name it is built from. The document list's captions are kept as data (`DocLink`).
- React's asynchronous state updates and batching are not modelled. A send is one atomic transition that reports the in-flight state, the request made and the settled state.
- The `confirm()` dialog is a boolean input of `ChatPage.LimpiarChat`.
- `parseInt` precision and number printing are not modelled. Ids are unbounded naturals, so digit runs longer than about 15 digits, which lose precision in JavaScript, are read exactly. Likewise `Text.NatToDecimal` spells every id in plain digits, while the `#doc-${doc.id}` fallback would show exponent notation (`1e+21`) for ids from 10^21 on.
- Positions are counted in Unicode scalar values, not UTF-16 code units. This changes only where a match sits, never which records or segments come out.
- ChatPage.ReplyCases: a 2xx reply whose body has no truthy `error` and no `respuesta` would store `undefined` as the message's content. The model stores the empty text there.
- Fixed example texts beyond `[Doc X: foo]`, `[Doc 5:]` and the prompt's format are stated by general lemmas instead. These are `Citations.InnerOpenSwallowed` for nested openings, `Citations.BlankName` for blank names and `Citations.LoneMarker` for single markers, each for every digit run and name.
- A missing colon after the digits is covered by `Citations.MalformedBracketsYieldNothing` and has no example lemma of its own.
- `todosDocumentos` is carried in `Types.Message` but nothing in the core reads it.
