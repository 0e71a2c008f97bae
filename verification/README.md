# Proposal generator core, modelled in Dafny

The proposal generator turns a client briefing for a market-research project
into a structured proposal (JSON) by calling a language model, lets a user
review and edit it in the browser, and renders it as a PDF. This project
models the logic that sits around the model call and the PDF library:

- **Document assembly** (`Layout`): `buildDocument` maps a proposal to an
  ordered list of abstract layout blocks. These are a cover page, ten
  numbered sections with dividers and two page breaks, the totals table and
  an optional trailing assumptions ("aannames") block. The module also holds
  the running header and footer, which depend on the page number.
- **String transforms** (`Format`, `Html`, `JsText`, `Decimal`):
  - `fmtDate`;
  - the PDF file-name slug, the JSON export name and the
    `Content-Disposition` header;
  - stripping the header of the system-prompt file;
  - the review screen's HTML escaping `esc`;
  - the JavaScript `trim`, `split`, `join` and `toLowerCase` these rely on.
- **Reply extraction** (`Extract`): the body of the first fenced code block
  of the model's reply, or otherwise the whole reply, trimmed. It also
  classifies failures into the "invalid JSON" message or `API fout: <message>`.
- **Streaming session** (`Stream`): the events the streaming analysis
  function sends while text deltas arrive. These are a progress event every
  15 deltas, one final progress event and exactly one terminal event, each
  framed as a server-sent event.
- **Request handling** (`Handlers`, `Nested`):
  - the guard chains of the three HTTP handlers;
  - the command line's `meta` check and output name;
  - the briefing-length gate of the review screen;
  - `setNestedValue`, the edit of a dotted path in the proposal tree.
- **Review-screen tables** (`Html`): `buildMiniTable` and the five rows of
  the browser's cost summary.

The server keeps its own copy of the helpers, the section builders and
`buildDocument` (server.js:36-423). That copy differs from the one in
src/generate-pdf.js only in formatting (line breaks, trailing commas,
braces around single-statement `if`s) and comments. The model therefore
defines the blocks once, in `Layout`, and both the command line and the
server's PDF route (`Handlers.ServerPdf`) use them.

The model call, `JSON.parse`, the PDF renderer and the builder of the
separate PDF function are parameters of the handlers. Text deltas, the way
the stream ends, and the system prompt and API key are inputs.

## Model

| member | source | states |
|---|---|---|
| Format.FmtDate | src/generate-pdf.js:38-43 | A missing or empty date prints as '—'. A date that splits into three '-' parts comes out with its parts reversed, read back by splitting the result again. Any other date is returned unchanged. |
| Format.FmtDateTwice | src/generate-pdf.js:40-42 | Formatting a three-part date twice gives back the date. |
| Format.Hyphenate | src/generate-pdf.js:575 | Every character outside `[a-z0-9]` becomes '-'. Every other character is kept, position by position. |
| Format.Collapse | src/generate-pdf.js:576 | `replace(/-+/g, '-')` leaves no two hyphens in a row, is no longer than its input, keeps the first character and only uses characters of its input. That each run becomes exactly one hyphen is stated by CollapseRun. |
| Format.CollapseRun | src/generate-pdf.js:576 | Dropping one hyphen of a run of two or more does not change the collapse, so each run of hyphens becomes exactly one hyphen. With CollapseFixesCollapsed this determines the result. |
| Format.CollapseKeepsLetters | src/generate-pdf.js:576 | Collapsing runs of hyphens removes hyphens only: without hyphens, the text is unchanged. |
| Format.CollapseFixesCollapsed | src/generate-pdf.js:576 | Text without a double hyphen is its own collapse. |
| Format.CollapseIdempotent | src/generate-pdf.js:576 | Collapsing twice gives the same as collapsing once. |
| Format.SlugStem | src/generate-pdf.js:573-575 | The lower-cased, hyphenated proposal number holds only `[a-z0-9-]`. It is at least as long as the number, or as 'offerte' when the number is missing. |
| Format.SlugStemAscii | src/generate-pdf.js:573-575 | For an ASCII number the stem has the number's length, and each character is the lower-cased character when that is in `[a-z0-9]`, and '-' otherwise. |
| Format.PdfSlug | src/generate-pdf.js:573-576 | The slug is the stem with its hyphen runs collapsed. It is non-empty, holds only `[a-z0-9-]` and has no double hyphen. Apart from hyphens, it equals the lower-cased, hyphenated number. |
| Format.SlugFallback | api/generate-pdf.js:36-39 | A missing or empty proposal number gives the slug 'offerte'. |
| Format.PdfFileName | server.js:483-486 | The download name is exactly the PDF slug followed by '.pdf', so its stem is `[a-z0-9-]` with no run of hyphens. |
| Format.JsonFileName | public/app.js:311-312 | The export name is exactly the uncollapsed slug stem followed by '.json', so its stem is `[a-z0-9-]`. Collapsing that stem's runs of hyphens gives the PDF slug. |
| Format.JsonFileNameAscii | public/app.js:311-312 | For an ASCII number the export name is the number's length plus five characters long. Each of its first characters is the lower-cased character when that is in `[a-z0-9]`, and '-' otherwise, so `a--b` gives `a--b.json`. |
| Format.ContentDispositionQuotesFileName | api/generate-pdf.js:41 | Splitting the header on '"' gives back `attachment; filename=` and exactly the PDF file name. |
| Format.AttachmentHeaderQuotesName | server.js:486 | A name without a quote is read back from `attachment; filename="<name>"` by splitting on '"'. |
| Format.SystemPromptAfterFirstSeparator | server.js:16 | The system prompt is the trimmed text after the first '---', with later '---' kept. It is empty when the file holds no '---'. |
| Format.PromptAfter | api/analyze.js:12 | When the first '---' is at `i`, the prompt is the trimmed text from `i + 3` on. |
| JsText.Trim | api/analyze.js:30 | `trim` returns the slice between the leading and trailing white space. That slice neither starts nor ends with white space, and everything around it is white space. |
| JsText.TrimEmptyIffAllSpace | api/analyze.js:30-31 | A briefing trims to the empty string exactly when it is all white space. |
| JsText.TrimIdempotent | public/app.js:36 | Trimming twice trims no further. |
| JsText.JoinSplit | server.js:16 | Joining the pieces of `split(sep)` with `sep` gives back the text. |
| JsText.SplitJoin | server.js:16 | Splitting a join gives back the pieces, provided no piece holds the separator's first character. |
| JsText.ToLowerAscii | src/generate-pdf.js:574 | On ASCII text `toLowerCase` keeps the length and maps each character to its lower case, 'A'-'Z' to 'a'-'z' and everything else unchanged. |
| JsText.ToLowerKeepsLowerAscii | src/generate-pdf.js:574 | Lower-case ASCII letters and digits are their own lower case. |
| Html.Esc | public/app.js:321-323 | The escaped text holds no raw '<', '>' or '"', and every '&' in it begins one of the four entities. |
| Html.FourPassesIsEsc | public/app.js:322 | The four global replacements, '&' first, escape each character independently. |
| Html.UnescapeEsc | public/app.js:322 | Decoding the four entities gives back the original text, so escaping loses nothing. |
| Html.EscValue | public/app.js:322 | `esc` of a falsy value, including 0 and '', is ''. Any other value decodes back to its string form, and the output is escaped. |
| Html.CellText | public/app.js:259 | A null or undefined cell is empty. Any other cell decodes back to `String(cell)`. |
| Html.LexRender | public/app.js:251-265 | Markup rendered from readable tokens lexes back to the same tokens. |
| Html.MiniTableStructure | public/app.js:251-265 | With class names free of '<' and '>', the mini table lexes back to its tokens. It has one `<th>` per header, one `<tr>` for the header row and one per data row, with `</tr>` likewise. Every text is non-empty and escaped. |
| Html.MiniTableCounts | public/app.js:251-265 | One `<th>` per header, and one `<tr>` and one `</tr>` for the header row and for each data row. |
| Html.CellCounts | public/app.js:257-260 | A row's cells contain one `</td>` per cell and no `<tr>`, `</tr>` or `<th>`. |
| Html.RowCounts | public/app.js:255-262 | The body has one `<tr>` and one `</tr>` per row and no header cell. |
| Html.CostSummaryRows | public/app.js:233-240 | The summary has five rows: the two stated subtotals (0 when missing), then the same three totals rows as the PDF's totals table. |
| Extract.FenceBody | api/analyze.js:80-81 | The regex captures nothing exactly when there is no fence, or no second fence starting after the first ends. A capture holds no fence and does not start with white space. |
| Extract.FenceMatchesIffTwoFences | server.js:451 | The pattern matches exactly when the reply holds two fences that do not overlap. |
| Extract.ExtractJson | server.js:450-453 | The parsed text never starts or ends with white space. A reply without a match is trimmed whole, and a fenced body holds no fence. |
| Extract.UnfencedReplyTrimmed | api/analyze.js:79-82 | A reply without any fence is parsed whole, trimmed. |
| Extract.ExtractBetween | api/analyze.js:80-82 | When the first match runs from the fence at `p` to the fence at `q`, the parsed text is the trimmed text between them, after the `json` tag when there is one. |
| Extract.TaggedFenceRoundTrip | api/analyze.js:80-82 | For a `json`-tagged block, the parsed text is its body, trimmed, whatever plain text surrounds it. |
| Extract.BareFenceRoundTrip | server.js:451-453 | The same for an untagged block whose body does not itself start with `json`. |
| Extract.ErrorMessage | api/analyze.js:88-91 | A SyntaxError reports the fixed message. Every other error reports `API fout: ` followed by its message. |
| Extract.ErrorMessageReadsBack | server.js:459-462 | The reported message tells a syntax error from any other error, and keeps the other error's message. |
| Stream.ProgressUpToClosed | api/analyze.js:64-71 | After `n` deltas, exactly `n / 15` progress events were sent, the j-th carrying `15 * (j + 1)`. |
| Stream.Outcome | api/analyze.js:78-93 | A session ends with exactly one terminal event. It is `complete` exactly when the stream finished and the extracted text parses. Text that does not parse gives the fixed invalid-JSON error, and a failed stream gives its own error message. |
| Stream.RunSession | api/analyze.js:61-93 | The loop as written accumulates the deltas in order and counts them. It sends exactly the events of the session's reference definition. |
| Stream.SessionShape | api/analyze.js:61-93 | A session sends `n / 15` progress events in increasing order. A final progress event with count `n` follows only when the stream finished. Exactly one terminal event comes last. |
| Stream.SessionOutcome | api/analyze.js:73-93 | The last event is `complete(v)` exactly when the stream finished and the text parses to `v`. A finished stream whose text does not parse ends with the fixed invalid-JSON error. A failed stream skips the final progress event and reports its error. |
| Stream.FinalProgressRepeats | api/analyze.js:68-76 | When 15 divides `n`, the final progress event repeats the last mid-stream count. |
| Stream.FortySevenDeltas | api/analyze.js:61-85 | A worked example of the cadence: 47 deltas that parse give the events for 15, 30, 45 and 47 chunks, then `complete`. |
| Stream.WireIsJoin | api/analyze.js:42-44 | The written stream is the `data: ` lines joined and ended by blank lines. |
| Stream.DeframeWire | api/analyze.js:42-44 | For one-line payloads, splitting the written stream on blank lines and stripping `data: ` gives back the payloads, in order. |
| Nested.SetPath | public/app.js:332-336 | A successful write keeps every other top-level member of the target and adds the first key. |
| Nested.SetNestedValueReadsBack | public/app.js:329-337 | On the proposal object, the edit succeeds exactly when no truthy primitive blocks the path. After it, reading the dotted path gives the written value. |
| Nested.SetThenGet | public/app.js:333-336 | After a successful write, reading the same keys gives the written value, falsy members on the way having become objects. |
| Nested.SetTwice | public/app.js:329-337 | Writing the same value at the same path twice gives the same tree as writing it once. |
| Nested.SetFailsIffBlocked | public/app.js:333-336 | On a truthy target, the write throws exactly when it meets a truthy primitive before the last key. |
| Nested.SetKeepsOtherPaths | public/app.js:329-337 | A path that leaves the written path before its end reads the same before and after the write. |
| Layout.LabelledBullets | src/generate-pdf.js:122-125 | A missing or empty list adds nothing. Otherwise it adds the bold label and the list with its items in order. |
| Layout.BuildAannames | src/generate-pdf.js:453-461 | The assumptions block is empty exactly when there are no assumptions. Otherwise it is four blocks, from a divider to the bullet list of the assumptions. |
| Layout.BuildDocument | src/generate-pdf.js:465-488 | A proposal without `meta` throws. Any other proposal gives the content in section order. |
| Layout.DocumentSkeleton | src/generate-pdf.js:465-488 | The content always has the same skeleton: the cover, a page break, then the section titles 1 to 10, once each and in order. One divider separates neighbouring sections, except for the page break between 5 and 6. The totals table sits in section 6, and a last divider appears only when there are assumptions. |
| Layout.AannamesAtEnd | src/generate-pdf.js:453-461 | With assumptions, the document's last four blocks are the divider, the heading, the note and the assumptions in their order. Without them, it ends with section 10. |
| Layout.TotalsInContent | src/generate-pdf.js:362-382 | The totals table, with the stated totals, is part of every document. |
| Layout.Header | src/generate-pdf.js:502-510 | There is no header on page 1 and a header on every other page. |
| Layout.Footer | src/generate-pdf.js:511-519 | There is no footer on page 1 and a footer on every other page. |
| Layout.FooterReadsPageOfCount | src/generate-pdf.js:516 | The footer's right column splits on ' / ' into two numbers that read back as the page and the page count. |
| Proposal.VatPercent | src/generate-pdf.js:372 | The VAT label's percentage is the stated one when that is present and not 0, and 21 otherwise. |
| Proposal.TotalsRows | src/generate-pdf.js:362-382 | The totals table has exactly three rows: excl. VAT, VAT and incl. VAT. |
| Proposal.TotalsRowsStated | src/generate-pdf.js:366-379 | The totals show the stated amounts verbatim (0 when missing) and the VAT label defaults to 21. Proposals with the same stated totals get the same rows, whatever their line items. |
| Decimal.ParseNatToString | src/generate-pdf.js:516 | A printed page number reads back as the number. |
| Handlers.BriefingText | api/analyze.js:30 | A missing or falsy field reads as ''. A string is trimmed. A truthy field that is not a string has no `trim` and throws. |
| Handlers.GateImpliesBriefing | public/app.js:26-37 | A briefing the review screen lets through, at least 20 characters after trim, is never refused as empty by the server. |
| Handlers.AnalyzeHandler | api/analyze.js:18-59 | The model is called exactly when the response is an event stream, with the fixed model, 3000 tokens, the system prompt, and the fixed instruction followed by the trimmed briefing. |
| Handlers.AnalyzeGuardOrder | api/analyze.js:18-33 | The guards fire in order: 405 for non-POST, 500 for a missing prompt, 500 for a missing key, 400 for an empty briefing. Each fires exactly when the earlier ones pass, and no event is sent unless all pass. |
| Handlers.ServerAnalyze | server.js:427-445 | The route answers 400 exactly for an empty briefing, and calls the model exactly otherwise, with 8000 tokens and the trimmed briefing after its own instruction. |
| Handlers.ServerAnalyzeAnswers | server.js:435-462 | The route answers with a value exactly when the call returned a reply whose extracted text parses to it. A reply that does not parse answers 500 with the fixed invalid-JSON message. An error the call itself throws is classified by its class through `Extract.ErrorMessage`: a SyntaxError gets the same invalid-JSON message, and any other error gets `API fout: ` and its message. |
| Handlers.PdfHandler | api/generate-pdf.js:17-51 | A PDF is sent only for a proposal with `meta`, under the `Content-Disposition` of its number. |
| Handlers.PdfGuardOrder | api/generate-pdf.js:18-50 | 405 exactly for non-POST, then 400 exactly for a missing body or `meta`, then 500 with the builder's message when building throws. A PDF is sent exactly when all pass and rendering succeeds. |
| Handlers.PdfGuardsBeforeBuild | api/generate-pdf.js:24-26 | A refused request does not depend on the builder or the renderer. |
| Handlers.PdfAttachmentName | api/generate-pdf.js:41 | The PDF's header quotes exactly the slug plus '.pdf'. |
| Handlers.ServerPdf | server.js:471-473 | The route answers 400 exactly when the body or its `meta` is missing. |
| Handlers.ServerPdfBuilds | server.js:475-495 | With `meta`, the route sends the PDF of the assembled content, or 500 with the renderer's error. |
| Handlers.CliOutputName | src/generate-pdf.js:562-580 | The command line refuses input without `meta`, with its own message. Without an output argument, the name is a collapsed slug plus '.pdf'. |
| Handlers.CliNameMatchesDownload | src/generate-pdf.js:573-579 | The command line's default output name is the same file name the server's download header quotes. |

## Left out

- Rendering: pdfmake, fonts, page geometry and the PDF byte stream are left out. The renderer's only observable effect, an `error` event, is the `renderError` parameter.
- Currency formatting (`fmt`, `fmtEur`) depends on `Intl.NumberFormat` and floating point. Amounts are kept as `real` in the blocks and are never formatted.
- Numbers are integers, and `NaN` and non-integer JSON numbers are not modelled. `String(n)` is written for integers only.
- Strings are sequences of code points, not UTF-16 code units. For text outside the Basic Multilingual Plane the source sees two units where the model sees one character. The briefing gate counts such a character twice, and a regular expression without the `u` flag replaces each unit separately.
- Format.JsonFileName: a character outside the Basic Multilingual Plane becomes one hyphen in the model and two in the browser's export name (public/app.js:311), because the browser's `replace(/[^a-z0-9]/g, '-')` works on UTF-16 units and the export name does not collapse runs. The PDF slug is not affected, since its runs are collapsed.
- `toLowerCase` folds ASCII letters and the two non-ASCII characters whose lower case contains ASCII letters (U+212A, U+0130). Every other character is kept, and its lower case holds no ASCII letter, so the slug is the same.
- The model call, its transport and retries are inputs. The server's call is given as its reply text or the error it threw, with that error's class (`Handlers.CallResult`), because the route's `catch` tells the two classes apart. So are `JSON.parse` (the `Parser` parameter) and `JSON.stringify` (the serialised event payloads).
- The builder imported from `src/pdf-builder` by the PDF function is not part of this model. It is the `build` parameter of `Handlers.PdfHandler`.
- The DOM wiring of the review screen (`renderReview`, `addSection`, `factCard`, the fetch and download handlers) is left out. So are the item tables of `buildKostenHtml`, apart from its five summary rows.
- The browser reads the download name back from `Content-Disposition` with a regular expression. The model proves the split on '"' instead (`Format.ContentDispositionQuotesFileName`).
- The browser parses the analysis response with `resp.json()`. The streaming function answers with server-sent events, which that call cannot parse. Only the server route's JSON answer fits it. Neither the browser's reading of the response nor this mismatch is modelled.
- Express routing, static files, dotenv, `fs` reads and writes, and the command line's argument handling, help text and file checks are left out.
- An exception a handler does not catch, such as `trim` on a non-string briefing, is the `Crash` response. Express's handling of it is not modelled.
- Nested.SetNestedValue: only objects and primitives are modelled. Arrays, `__proto__` keys and assignment to a key of a non-object root are not. The root is always the proposal object.
- Nested.SetPath: reads see own members only. In JavaScript `target[k]` also finds inherited members (`toString`, `constructor`) and properties of primitives (`length` of a string), which the model reads as `undefined`. So `SetFailsIffBlocked` and `SetThenGet` hold for paths whose keys are not such names. The edit paths the review screen uses are schema field names, which are not.
- Format.SlugStem: the stem is given character by character only for ASCII numbers (`Format.SlugStemAscii`). For other numbers the model states only the character set and the length bound, because `toLowerCase` of non-ASCII text is modelled only as far as the slug needs it.
- Layout.BuildDocument: a proposal whose `meta` is present but not an object is not modelled. `meta` is an optional record.
- Layout.DocumentSkeleton: it states the order of the shape-giving blocks (cover, page breaks, dividers, titles, totals). The text inside each section is shown by the builders, not by a separate lemma.
- Stream.DeframeWire: it is stated for payloads without a line break, which holds for the output of `JSON.stringify`. The model does not prove that property of `JSON.stringify`.
- Proposal fields are taken to have the schema's types: text fields are strings and lists are arrays. A truthy value of another type makes the source throw, which the model does not represent. A numeric `offerte_nummer` fails at `.toLowerCase` (api/generate-pdf.js:37, server.js:484, src/generate-pdf.js:574). In the two handlers that happens inside the renderer's `end` callback, outside the `try`, so no 500 is sent. A numeric `offerte_datum` fails at `isoDate.split` (src/generate-pdf.js:40). The server's PDF route (server.js:475-495) turns that into a 500 through its `catch`. What the separate PDF function (api/generate-pdf.js) does then depends on the `src/pdf-builder` builder, which is not part of this model.
- `Extract.ExtractJson` passes the trimmed fenced body, or the trimmed reply, straight to the parser. There is no other clean-up step.
