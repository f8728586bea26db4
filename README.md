# Ayurveda intake form and server, modelled in Dafny

The system is a one-page intake questionnaire for an Ayurveda spa session and
the small Express server behind it.

The browser side (`src/App.tsx`) walks a client through eighteen questions and
a preview:
- text fields, a 1–10 vitality number, radio choices, and checkbox lists;
- in the sensitivity list, "特になし" ("none in particular") must be chosen alone;
- each question is checked before the next one is shown;
- the preview maps the Japanese choices to English labels and POSTs the answers.

The server (`server.js`) checks its configuration, then validates the payload
(status 400 with every error joined by "; "). It then runs six stages in order,
and the first failure ends the request with status 500:
1. it makes sure the two intake tabs exist and carry their header rows;
2. it appends the raw intake row;
3. it asks the Gemini model for an English summary, reading the reply as JSON
   with a fallback record;
4. it appends the translated row;
5. it adds a per-client "karte" tab in front, with 24 label/value rows;
6. it mails a notification encoded as URL-safe base64.

Modules, in dependency order:

| module | what it holds |
|---|---|
| `Wrappers` | `Option` and `Result` |
| `Text` | trimming, `split`/`join`, `filter(Boolean)`, prefixes |
| `Js` | the JSON values a request carries; `String()`, `Number()`, truthiness, property reads |
| `Payload` | `safeStr`, `safeArr` and the e-mail pattern; `validatePayload` as a specification function and as the imperative method that pushes the errors |
| `ValidationRules` | what each validation message means, in both directions |
| `Sheets` | the spreadsheet, Gmail outbox and model as a value (`World`); which calls fail (`Env`); `Cloud`, the object whose `Perform` carries out one call |
| `Schema` | `ensureSheetsAndHeaders` and `ensureHeaderRow` |
| `Translate` | the fence stripping, brace span and parse-with-fallback of `translateAndSummarize` |
| `Records` | the raw row, translated row, sheet-title sanitiser, and the karte title and rows |
| `Encoding` | UTF-8, base64, and the base64url step with its decoder |
| `Mail` | the mail body and the message around it |
| `Submit` | `handleSubmit` and the server's async functions as methods on a `Cloud`; each method is proved equal to a pure step function |
| `Choices` | the `map*` label tables and the checkbox toggle |
| `Wizard` | the steps, `validateAndSave`'s check, the preview text and the payload |
| `IntakeApp` | the component's state hooks as the class `App`, with its handlers |
| `Acceptance`, `Handoff` | an answer set the wizard accepts produces a payload the server accepts |

Inputs the model does not compute:
- The submission id, the two clock readings, the date part of the karte title
  and the outcome of building credentials are request inputs (`Submit.Inputs`).
- `JSON.parse` is a function parameter.
- The text the model replies with and the positions of failing calls are the
  `Env`.

## Model

| member | source | states |
|---|---|---|
| Text.Trim | server.js:136 | the result has no white space at either end and is no longer than the input |
| Text.TrimIsMiddle | server.js:136 | the trimmed text is the part of the input between its leading and its trailing white space, nothing else removed |
| Text.TrimStart | server.js:136 | what is removed from the front is all white space, and what is left does not start with any |
| Text.TrimEnd | server.js:136 | what is removed from the back is all white space, and what is left does not end with any |
| Text.TrimIdempotent | server.js:136 | trimming a trimmed text changes nothing |
| Text.TrimEmptyIffAllSpace | server.js:135-136 | a text trims to "" exactly when it is all white space |
| Text.Split | server.js:147 | no piece holds the separator, and the pieces joined by it give the text back |
| Text.SplitJoin | server.js:147 | splitting a join of separator-free pieces gives the pieces back |
| Text.NonEmpty | server.js:146 | `filter(Boolean)` keeps exactly the non-empty entries and adds none |
| Text.NonEmptySplits | server.js:146-147 | `filter(Boolean)` works piece by piece: the entries kept from `a + b` are those of `a` and then those of `b`, in order |
| Text.NonEmptyOne | server.js:146-147 | one entry is kept exactly when it is not the empty string |
| Text.Take | server.js:277 | `slice(0, n)` is the prefix of exactly n characters, or the whole text when it is shorter |
| Js.Prop | server.js:176 | `data[key]` is the property when present and undefined otherwise |
| Js.DecimalRoundTrip | server.js:140 | `Number()` of an integer's decimal spelling gives the integer back |
| Payload.SafeStr | server.js:134-137 | null and undefined give ""; the result is trimmed and no longer than `String(v)` |
| Payload.SafeStrIsMiddle | server.js:134-137 | any other value gives `String(v)` with its surrounding white space cut off and nothing else removed |
| Payload.SafeArr | server.js:144-148 | a falsy value gives []; every entry kept is non-empty and trimmed |
| Payload.SafeArrEntryByEntry | server.js:144-146 | an empty array gives no choice, and each array entry adds its `safeStr`, unless blank, after the choices of the entries before it |
| Payload.SafeArrOfArrays | server.js:146 | the choices of two arrays joined are those of the first followed by those of the second |
| Payload.SafeArrOfCommaFree | server.js:147 | a text without a comma is one choice, trimmed, or none when it is blank |
| Payload.SafeArrAtComma | server.js:147 | a text is cut at each comma: the choices of `a,b` are those of `a` followed by those of `b` |
| Payload.SafeArrOfCommaList | server.js:147 | clean choices without commas, joined by ",", come back from `safeArr` as they were |
| Payload.SafeStrAll | server.js:146 | `map(x => safeStr(x))`: one entry per item, each its `safeStr` |
| Payload.SafeArrOfCleanChoices | server.js:434 | a list `safeArr` produced reads back unchanged when passed through `safeArr` again |
| Payload.EmailShapeIsPattern | server.js:178 | three runs without "@" or white space, joined by "@" and ".", are exactly the texts the e-mail regex accepts |
| Payload.ReportMissing | server.js:175-177 | the loop reports exactly the blank required keys, in order |
| Payload.ReportEmail | server.js:178-180 | the e-mail check reports exactly the e-mail errors `PayloadErrors` lists |
| Payload.ReportVitality | server.js:182-185 | the vitality check reports exactly the vitality errors `PayloadErrors` lists |
| Payload.ReportChoice | server.js:192-198 | one multi-choice key reports an empty list, then a non-exclusive "None" for the sensitivity key |
| Payload.ReportEmptyChoices | server.js:191-199 | the loop over the multi-choice keys reports each key's errors in key order |
| Payload.ValidatePayload | server.js:150-204 | the errors pushed equal `PayloadErrors`, the list the `ValidationRules` lemmas characterise |
| ValidationRules.NotAnObject | server.js:170-173 | the errors are exactly ["Invalid payload"] when the payload is not an object, and only then |
| ValidationRules.RequiredReported | server.js:187-189 | a required text key's message appears exactly when its field is blank |
| ValidationRules.EmailReported | server.js:178-180 | "email is invalid" appears exactly when a non-blank address fails the pattern |
| ValidationRules.VitalityReported | server.js:182-185 | the vitality message appears exactly when the value is not a finite number in [1, 10] |
| ValidationRules.VitalityBoundaries | server.js:183 | the range is closed, whether the number comes as a number or as a string; 0 and 11 fail, 1 and 10 pass |
| ValidationRules.EmptyChoiceReported | server.js:191-193 | a multi-choice key's message appears exactly when its list is empty after `safeArr` |
| ValidationRules.ExclusivityReported | server.js:194-198 | the exclusivity message appears exactly when "None" is chosen with something else |
| ValidationRules.MissingErrorsReport | server.js:175-177 | a key's message is in the loop's list exactly when the key is listed and blank; the list is empty exactly when none is blank |
| ValidationRules.MultiErrorsReportEmpty | server.js:191-193 | a key's empty-list message is in the list exactly when the key is listed and its list is empty |
| ValidationRules.MultiErrorsReportExclusive | server.js:194-198 | the exclusivity message is in the list exactly when the sensitivity key is listed and "None" is not alone |
| ValidationRules.MultiErrorsNone | server.js:191-199 | the multi-choice loop reports nothing exactly when every list is non-empty and "None" stands alone |
| ValidationRules.ListRuleNone | server.js:191-199 | for the four multi-choice keys: no error exactly when every list is non-empty and "None" stands alone |
| ValidationRules.InPayloadErrors | server.js:150-204 | a message is reported exactly when one of the six checks reports it |
| ValidationRules.NoErrorsByRule | server.js:150-204 | no error at all exactly when each of the six checks reports nothing |
| ValidationRules.AcceptedIffNoErrors | server.js:150-204 | the payload passes with no error exactly when every rule holds (`PayloadAcceptable`) |
| ValidationRules.RequiredMessageInjective | server.js:176 | different keys never give the same "is required" message |
| ValidationRules.EmptyChoiceMessageInjective | server.js:193 | different keys never give the same "requires at least one value" message |
| Sheets.AddTabs | server.js:82-84 | adding tabs is all or nothing: it fails when a title is taken or repeated; otherwise old tabs are kept and new ones are empty |
| Sheets.Row1 | server.js:110 | row 1 read back is cut to the width of the header range and shows each cell's text |
| Sheets.Overlay | server.js:113-118 | a block written at A1 replaces the cells it covers and leaves the rows below it alone |
| Sheets.OverlayOnEmpty | server.js:371-376 | a block written to a new, empty tab becomes the tab |
| Sheets.Exec | server.js:72 | every call is logged with its outcome; a call at a faulty position fails with that fault's message; a failed call changes nothing else; only a sent mail reaches the outbox |
| Sheets.Cloud.constructor | server.js:419-420 | a client starts on the given spreadsheet, with an empty outbox and log |
| Sheets.Cloud.Perform | server.js:72 | one API call changes the client's world and answers as `Exec` says |
| Schema.MissingTabs | server.js:75-81 | a tab is requested exactly when its title is missing, and only the two intake tabs are ever requested |
| Schema.HeaderBlockReadsBack | server.js:113-118 | after the headers are written, row 1 reads back as the headers |
| Schema.HeaderWritesIffMismatch | server.js:104-120 | with no failure, the header step reads row 1 and writes the headers exactly when they differ, and then leaves the book alone |
| Schema.HeaderEstablished | server.js:104-120 | after a header step that succeeds, each header equals the text of the cell under it in row 1 |
| Schema.HeaderKeepsOtherTabs | server.js:104-120 | the header step changes no other tab, no title and no mail, and only adds to the log |
| Schema.HeaderIdempotent | server.js:111-119 | running the header step again after it succeeded only reads |
| Schema.SchemaEstablished | server.js:68-102 | a schema step that succeeds leaves both tabs present with their headers, and the book well formed |
| Schema.SchemaSucceeds | server.js:68-102 | on a consistent spreadsheet with no fault, the schema step succeeds within six calls and adds no tab but the two intake tabs |
| Schema.HeaderGoesThrough | server.js:104-120 | with no fault, the header step on an existing tab succeeds within two calls and keeps the tabs |
| Schema.MissingTabsAbsent | server.js:72-84 | on a consistent spreadsheet the tabs requested are new and distinct, and with the tabs held they cover both intake tabs |
| Schema.SchemaIdempotent | server.js:68-102 | on a spreadsheet already set up, the schema step makes three reads and changes nothing |
| Schema.SchemaStepReadsOnly | server.js:82-84 | with both tabs present, no tab is added and the step is the two header steps |
| Schema.HeaderProgressed | server.js:104-120 | the header step sends no mail and stops at its first failed call |
| Schema.HeadersProgressed | server.js:100-101 | the two header steps in a row send no mail and stop at the first failed call |
| Schema.SchemaProgressed | server.js:68-102 | the schema step sends no mail and stops at its first failed call |
| Schema.EnsureHeaderRow | server.js:104-120 | the method's new world and outcome are those of the header step |
| Schema.EnsureSheetsAndHeaders | server.js:68-102 | the method's new world and outcome are those of the schema step |
| Records.SafeNumReads | server.js:139-142 | a number, and its decimal spelling, give that number; null and "" give 0; undefined and a text opening with a character that is not white space, a sign or a digit give "" |
| Records.RawRowAligned | server.js:210-232 | the raw row has 21 cells, one per raw header: id, time, "NEW", then each field under its own header |
| Records.AcceptedPersonalFilled | server.js:214-218 | a payload the validator accepts fills the five personal cells of the raw row |
| Records.AcceptedTextFilled | server.js:220-231 | an accepted payload fills every required single-value cell of the raw row |
| Records.AcceptedChoicesFilled | server.js:219-227 | an accepted payload fills the four list cells and stores vitality as a number in [1, 10] |
| Records.TranslatedRowAligned | server.js:298-305 | the translated row has one cell per translated header, each holding that header's value |
| Records.RemoveForbidden | server.js:316 | the result holds no forbidden character, only characters of the input, and every allowed one |
| Records.RemoveForbiddenSplits | server.js:316 | the characters kept from `a + b` are those of `a` and then those of `b`, in order |
| Records.RemoveForbiddenOne | server.js:316 | one character is kept exactly when a sheet title may hold it |
| Records.SanitizeSheetTitle | server.js:315-318 | the title is non-empty, at most 100 characters long and free of forbidden characters |
| Records.CleanTitleKept | server.js:315-318 | a title that is already acceptable is kept as it is |
| Records.SanitizeIdempotent | server.js:315-318 | sanitising twice is sanitising once |
| Records.FallbackOnlyWhenNothingLeft | server.js:317 | "Karte" is used exactly when nothing survives the removal; otherwise the title is the first 100 characters of what survives (all of them when fewer) |
| Records.KarteTitle | server.js:330-332 | the karte title is non-empty, at most 100 characters long and free of forbidden characters |
| Records.KarteTitleSpelledOut | server.js:331 | a clean base title reads date, "_", last and first name, "様_", then the first six characters of the id |
| Records.Preferred | server.js:359 | the translated text when `safeStr` keeps it, otherwise the client's own; blank only when both are |
| Records.FieldsOf | server.js:343 | `translated_fields` when it is truthy; never null or undefined, so reading a property from it cannot throw |
| Records.KarteBlockReadsBack | server.js:344-369 | read back, the block shows the labels down column A, the values down column B, and nothing beyond |
| Records.KarteColumns | server.js:344-369 | the karte tab shows its 24 labels in column A and the submission's values beside them in label order |
| Records.KarteCopiesRawRow | server.js:344-369 | every karte row that repeats a raw field shows exactly the raw row's cell |
| Records.KartePrefersTranslation | server.js:359-363 | let-go, allergies and medical history prefer the model's translation over the client's text |
| Records.KarteShowsTranslation | server.js:366-368 | the summary, flags and full text appear on the karte unchanged |
| Translate.FirstOpenFence | server.js:270 | finds the first "```json" in any letter case and no earlier one |
| Translate.SkipSpace | server.js:270 | skips exactly the white space after the opening fence |
| Translate.FirstCloseFence | server.js:271 | finds the first "```" followed only by white space to the end |
| Translate.BraceSpan | server.js:273 | there is a match exactly when the text holds a "{" and ends in "}"; the match runs from the first "{" to the end |
| Translate.LeadingTextDropped | server.js:269-274 | text before a JSON object (without "{" or a fence) is dropped, and the parser gets the object alone |
| Translate.BareObjectCandidate | server.js:269-274 | a bare JSON object reply is handed to the parser as it is |
| Translate.FencedObjectCandidate | server.js:269-274 | an object wrapped in a json code fence is handed to the parser without the fence |
| Translate.RaisesOnlyOnNull | server.js:267-288 | reading the reply fails only when it parses to `null`; a reply that does not parse never fails |
| Translate.FallbackRecord | server.js:275-281 | an unparseable reply gives its first 800 characters trimmed, "CHECK_OUTPUT_FORMAT", the whole reply and no fields |
| Translate.FallbackFields | server.js:275-288 | for any reply, the fallback record is `safeStr` of the first 800 characters, "CHECK_OUTPUT_FORMAT" and the reply, with no fields |
| Translate.FallbackSummaryIsPrefix | server.js:277 | the fallback summary is a prefix of the reply of at most 800 characters |
| Translate.ParsedRecord | server.js:283-288 | a parsed object gives its three texts through `safeStr` and its fields, or an empty object |
| Translate.RecordTrimmed | server.js:283-288 | the summary, flags and full text of every record are trimmed, and the fields are truthy |
| Mail.ShownFlags | server.js:311 | the flags line shows the trimmed flags, or "None" when they are blank |
| Mail.BodyCarriesTranslation | server.js:312 | the body contains the summary on its own lines and ends with the full text |
| Mail.BodyReadsBack | server.js:312 | the body's first six lines read back as intro, blank, id, flags, blank and "Summary:" |
| Mail.BodyRoundTrip | server.js:312 | with single-line parts, splitting the body at newlines gives its ten lines back |
| Mail.MessageLayout | server.js:385-392 | the message is the four header lines, a blank line, then the body |
| Mail.MessageReadsBack | server.js:385-392 | the message's first eleven lines read back as the headers and the body's opening lines |
| Mail.NotificationRaw | server.js:379-398 | the encoding fails with "Missing GMAIL_SENDER" exactly when the sender is empty |
| Mail.SentMessageDecodes | server.js:383-398 | what is sent is URL-safe and decodes back to the message text |
| Encoding.EncodeChar | server.js:394 | a character takes one to four bytes, one exactly for ASCII, and the rest are continuation bytes |
| Encoding.Utf8RoundTrip | server.js:394 | decoding the UTF-8 bytes of a text gives the text back |
| Encoding.Utf8Encode | server.js:394 | a text takes between one and four bytes per character |
| Encoding.AsciiEncoding | server.js:394 | an ASCII text encodes byte for byte |
| Encoding.Base64 | server.js:395 | standard base64 is a whole number of four-character groups, empty only for no bytes |
| Encoding.UrlRewrite | server.js:396-397 | "+" becomes "-" and "/" becomes "_", everything else is kept |
| Encoding.StripPadding | server.js:398 | only the trailing "=" run is removed |
| Encoding.RewritesToGroups | server.js:395-397 | the rewritten base64 is the URL-safe groups followed by the padding |
| Encoding.PaddingStripped | server.js:398 | stripping the "=" run after URL-safe digits leaves exactly the digits |
| Encoding.UrlGroupsRoundTrip | server.js:394-398 | the URL-safe groups of any bytes decode back to those bytes |
| Encoding.Base64UrlIsUrlGroups | server.js:394-398 | the sent text is exactly the URL-safe groups without padding |
| Encoding.Base64UrlRoundTrip | server.js:394-398 | the URL-safe encoding decodes back to the bytes it encoded |
| Encoding.Base64UrlAlphabet | server.js:394-398 | the sent text uses only the URL-safe alphabet and is as long as unpadded base64 |
| Encoding.MessageRoundTrip | server.js:394-398 | the encoded message decodes to its bytes, which decode to the message text |
| Submit.MissingConfig | server.js:409-411 | the first empty setting, in the order checked, or none when all are set |
| Submit.Body | server.js:413 | `req.body || {}` is always an object-like value, and the body itself when truthy |
| Submit.TranslateInput | server.js:426-445 | the model's input is an object with exactly the eighteen intake keys |
| Submit.TranslateInputAgrees | server.js:426-445 | list fields are shown after `safeArr` and read back unchanged; the other fields are shown as posted |
| Submit.InputFieldShown | server.js:426-445 | each key of the model's input holds that key's field, through `safeArr` for a list |
| Submit.Deliver | server.js:422-453 | after validation, a failed stage answers 500 and a success answers with the submission id |
| Submit.StoreAndTranslate | server.js:424-445 | the raw row and model stages answer 500 on failure, or the submission id |
| Submit.Publish | server.js:448-453 | the last three stages answer 500 on failure, or the submission id |
| Submit.BadRequestIffInvalid | server.js:409-417 | status 400 is given exactly when the settings are present and the payload has errors, and it lists them joined by "; " |
| Submit.RejectedBeforeAnyCall | server.js:409-420 | a missing setting, an invalid payload or failing credentials answer before any call, leaving the world as it was |
| Submit.AcceptedOnlyWhenValid | server.js:407-453 | an accepted request had every setting, a payload passing every rule and working credentials, and answers with its id |
| Submit.SubmitDelivers | server.js:407-453 | with every setting present, a valid payload and working credentials, the request is exactly the six stages |
| Submit.MailProgressed | server.js:379-404 | the mail stage sends one message exactly when it succeeds |
| Submit.KarteProgressed | server.js:334-376 | the karte stage sends no mail and stops at its first failed call |
| Submit.PublishProgressed | server.js:448-451 | the last three stages stop at the first failure, and mail once exactly when they succeed |
| Submit.StoreAndTranslateProgressed | server.js:424-451 | from the raw row on, the stages stop at the first failure and mail once exactly when accepted |
| Submit.DeliverProgressed | server.js:422-451 | all six stages stop at the first failure and mail once exactly when accepted |
| Submit.SubmitProgressed | server.js:407-458 | a request stops at its first failed call, is accepted only when every call succeeded, and mails once exactly when accepted |
| Submit.AppendAccepted | server.js:234-239 | a successful append adds the row below the tab's last row |
| Submit.KarteAccepted | server.js:334-376 | a successful karte stage adds a new first tab holding exactly the karte rows |
| Submit.MailAccepted | server.js:400-403 | a successful mail stage adds the encoded message to the outbox |
| Submit.TranslateAccepted | server.js:260-289 | when the model answers, the record is the one read from its reply |
| Submit.PublishAccepted | server.js:448-451 | an accepted tail adds the translated row and the karte tab in front, mails the message, and logs four successful calls |
| Submit.StoreAndTranslateAccepted | server.js:424-451 | an accepted request files one raw row, one translated row and one karte tab, and sends one mail |
| Submit.PublishSucceeds | server.js:448-451 | with no fault, the translated tab present and the karte title free, the last three stages succeed |
| Submit.StoreAndTranslateSucceeds | server.js:424-451 | with no fault, both intake tabs present, a reply read as a record, a sender and a free karte title, the request from the raw row on is accepted |
| Submit.StoreAndTranslateFiles | server.js:424-451 | an accepted run from the raw row on leaves both rows at the ends of their tabs, the karte tab in front with its rows, and one mail |
| Submit.DeliverSucceeds | server.js:420-451 | on a consistent spreadsheet with no fault, a reply read as a record and a free karte title, the six stages accept and file the submission |
| Submit.SubmitSucceeds | server.js:407-453 | a well-configured server with credentials, given a valid payload, no fault, a reply not read as `null` and a free karte title, answers with the id, files both rows and the karte tab, and mails once |
| Submit.AppendRawRow | server.js:206-242 | the method appends the raw row built from the cleaned payload, as the append step does |
| Submit.TranslateAndSummarize | server.js:244-289 | the method makes one model call and reads the reply as the translate step does |
| Submit.AppendTranslatedRow | server.js:291-308 | the method appends the translated row, as the append step does |
| Submit.CreateKarteSheet | server.js:328-377 | the method adds the karte tab and writes its rows, as the karte step does |
| Submit.SendNotificationEmail | server.js:379-404 | the method throws without a sender and otherwise sends the encoded message, as the mail step does |
| Submit.HandleSubmit | server.js:407-458 | the handler's new world and answer are those of `SubmitStep` |
| Submit.DeliverSubmission | server.js:422-453 | the six stages run in order, as `Deliver` does |
| Submit.PublishTranslation | server.js:448-453 | the last three stages run in order, as `Publish` does |
| Choices.Lookup | src/App.tsx:47 | `table[v]` is missing exactly for values that are not keys, and is otherwise the label paired with the key |
| Choices.LabelCases | src/App.tsx:47-76 | a known option maps to its label, an unknown non-empty text passes through, and blank or missing gives "" |
| Choices.KnownOptionLabelled | src/App.tsx:47-76 | a known option maps to a non-empty, trimmed label |
| Choices.SingleTablesLabelled | src/App.tsx:47-76 | the single-choice tables have no blank option and only letter-bounded labels |
| Choices.MultiTablesLabelled | src/App.tsx:48-70 | the multi-choice tables have no blank option and only letter-bounded labels |
| Choices.SensoryNoneOnlyForNoneOption | src/App.tsx:69 | among the known sensitivities, only "特になし" maps to "None" |
| Choices.Remove | src/App.tsx:297 | filtering out a value keeps exactly the other entries |
| Choices.Dedup | src/App.tsx:295 | `Array.from(new Set(...))` has no repeats and holds the same values |
| Choices.DedupFirstOccurrence | src/App.tsx:295 | the values come in the order of their first occurrence in the list |
| Choices.CheckNone | src/App.tsx:292-293 | checking "特になし" on the exclusive question leaves it alone |
| Choices.CheckOption | src/App.tsx:294-295 | checking an option drops "特になし" and adds the option once, at the end |
| Choices.Uncheck | src/App.tsx:297 | unchecking removes exactly that option and keeps the order of the rest |
| Choices.ToggleKeepsShape | src/App.tsx:290-298 | a toggle keeps the list free of repeats and within the options, keeps "特になし" alone, and leaves the option checked or unchecked as asked |
| Wizard.StepCheck | src/App.tsx:104-142 | each kind of step accepts its answer exactly under its rule (number in range, non-blank text and e-mail pattern, a choice, a non-empty list, "特になし" alone), and a rejected answer shows the message of the first rule it breaks |
| Wizard.FormatAnswerForPreview | src/App.tsx:344-348 | a missing answer shows as "" and a text answer as itself |
| Wizard.PreviewOfChoices | src/App.tsx:346 | a list shows as its entries joined by "、" |
| Wizard.PreviewCell | src/App.tsx:222 | a preview cell is never blank, and shows the answer whenever it is not |
| Wizard.MapList | src/App.tsx:184-190 | a checkbox list maps entry by entry to the labels |
| Wizard.PayloadOf | src/App.tsx:176-195 | the payload is an object with exactly the eighteen posted keys |
| Wizard.QuestionOrder | src/App.tsx:25-45 | there are eighteen questions in payload order, then the preview |
| Wizard.KeysDistinct | src/App.tsx:25-45 | no two steps share an answer key |
| Wizard.QuestionKinds | src/App.tsx:25-45 | the kind of each question, and vitality's range of 1 to 10 |
| Wizard.ExclusiveOffersNone | src/App.tsx:37 | the exclusive question offers "特になし" |
| Wizard.KeysByKind | src/App.tsx:176-195 | the payload maps exactly the checkbox questions as lists and the radio questions through a label |
| IntakeApp.ReplyMessage | src/App.tsx:197-212 | success exactly on an ok response with ok JSON, showing the id; a refused response shows its own error or "送信に失敗しました" after the prefix; an exception shows its message, or "Error" |
| IntakeApp.App.constructor | src/App.tsx:79-83 | the first render shows the first question with no answers and no messages |
| IntakeApp.App.SetAnswer | src/App.tsx:100-102 | the answer is stored under the current key and nothing else changes |
| IntakeApp.App.ToggleOption | src/App.tsx:290-298 | the checkbox handler stores the toggled list, checked or unchecked as asked |
| IntakeApp.App.ValidateAndSave | src/App.tsx:104-147 | true exactly when the step accepts its answer; otherwise the error line shows why |
| IntakeApp.App.GoNext | src/App.tsx:149-163 | nothing while submitting; otherwise a rejected answer stays, an accepted question moves on, and the preview sends a payload the server's validator accepts |
| IntakeApp.App.GoBack | src/App.tsx:165-171 | nothing on the first step or while submitting; otherwise it clears both messages and steps back |
| IntakeApp.App.FinishSubmit | src/App.tsx:197-212 | the reply's message goes on the success or error line, and the form opens again |
| IntakeApp.StoredAtCurrent | src/App.tsx:100-102 | storing an answer the input can hold keeps every other answer, so the state stays valid |
| IntakeApp.AcceptedOneMore | src/App.tsx:149-163 | accepting the current question extends the accepted questions by one |
| IntakeApp.ToggledFits | src/App.tsx:290-298 | the list a toggle stores is one the checkbox group can hold |
| Handoff.TextKept | src/App.tsx:117-123 | an accepted text answer is one `safeStr` keeps |
| Handoff.EmailKept | src/App.tsx:119 | an accepted e-mail matches the server's pattern too |
| Handoff.SingleKept | src/App.tsx:125-128 | an accepted radio answer maps to a label `safeStr` keeps |
| Handoff.ListKept | src/App.tsx:130-133 | an accepted checkbox answer maps to a list `safeArr` keeps non-empty |
| Handoff.SensoryKept | src/App.tsx:135-138 | an accepted sensitivity answer keeps the server's "None" alone |
| Handoff.FieldKept | src/App.tsx:176-195 | every accepted answer gives a payload field that passes the server's rule for its kind |
| Handoff.PostedByKind | src/App.tsx:176-195 | each posted field is built from its question's answer by that question's kind |
| Handoff.QuestionFieldKept | src/App.tsx:176-195 | every question answered and accepted gives a field in the payload that passes the server's rule for its kind |
| Handoff.EmailFieldKept | src/App.tsx:119 | the posted e-mail of an accepted wizard matches the server's pattern |
| Handoff.VitalityFieldKept | src/App.tsx:110-114 | the posted vitality of an accepted wizard reads as a number in [1, 10] |
| Handoff.SensoryFieldKept | src/App.tsx:135-138 | the posted sensitivity list of an accepted wizard keeps "None" alone |
| Handoff.PayloadBuilt | src/App.tsx:176-195 | an accepted wizard always builds a payload |
| Handoff.AnswersPass | src/App.tsx:176-195 | answers accepted at every step give a payload whose fields all pass by kind |
| Handoff.SpecialsKept | src/App.tsx:176-195 | the posted e-mail matches the pattern, vitality is in range, and "None" stands alone |
| Handoff.WizardPayloadAcceptable | src/App.tsx:173-195 | the payload sent from the preview satisfies every rule of `validatePayload` |
| Handoff.WizardPayloadValid | src/App.tsx:173-195 | the payload sent from the preview gets no error from `validatePayload` |
| Acceptance.RequiredFilled | server.js:152-168 | every key the validator requires is filled in a payload whose fields pass by kind |
| Acceptance.TextFilled | server.js:175-177 | keys placed at text or radio questions have non-blank fields when every field passes by kind |
| Acceptance.ListFilled | server.js:191-193 | keys placed at checkbox questions have non-empty lists when every field passes by kind |
| Acceptance.PassingPayloadAcceptable | server.js:150-204 | fields passing by kind, a well-formed e-mail, vitality in range and "None" alone satisfy every rule |

## Left out

- **Numbers:**
  - Numbers are integers.
  - `Number()` reads a trimmed, optionally signed decimal integer, and "" reads as 0.
  - Fractions, exponents, hexadecimal, "Infinity" and the spelling of non-integer numbers are not modelled.
  - So a vitality of "7.5" is not a number here.
- **Strings:** strings are sequences of characters; UTF-16 code units (in `slice`, lengths) are not modelled separately.
- **Range texts:** the A1 range texts built for each call, such as `title!A1:U1`, are not modelled; the call names the tab and the width instead.
- **Service error texts:** the messages of failing Google or Gemini calls are whatever `Env.faults` holds.
- **Clock and ids:** `nowTokyo`, `formatDateForTitle` and `uuid` are inputs of the request, not computed.
- **Outside the model:**
  - Building the model prompt and `JSON.stringify` of the input: the model sees the input as a JSON value.
  - The model name, credentials, the Express routing and static files, and HTTP.
- **The JSON parser:** a parameter; a reply is read by whatever it returns.
- **The catch-all message:** `err?.message || String(err)` in the catch-all is modelled as the error's message text; a thrown value without a message is not.
- **Concurrency:** two requests at once are not modelled, including two karte tabs racing for one title.
- **Unreachable throws:**
  - `sendNotificationEmail`'s "Missing GMAIL_SENDER" throw, `ensureSheetsAndHeaders`' "Missing SPREADSHEET_ID" throw and `getGeminiClient`'s throw cannot happen after the configuration check.
  - The first is still modelled; the other two are left out.
- **Property names:** properties are looked up by own key only; inherited names such as `constructor` or `toString` are not.
- **Unreachable fallback:** `validateAndSave`'s last message, '入力内容を確認してください。', is unreachable with the eighteen steps and is left out.
- **Payload shape:** the POSTed payload is taken to reach the server as the value the browser built, without JSON serialisation.
- **Rendering:** step titles, descriptions and placeholders, the buttons, the progress bar, `window.scrollTo` and React rendering are left out.
- **State updates:** React batches the state updates of one handler; the model makes them one after another.
- **The POST:** `submitAll` is split at its network call.
  - `IntakeApp.App.GoNext` hands over the payload.
  - `IntakeApp.App.FinishSubmit` takes the reply.
  - What happens on screen between the two is not modelled.
- **Error order in `Payload.ValidatePayload`:** each check's pushes are grouped into one list before being appended, which gives the same errors in the same order.

Three behaviours of the code that a reader might not expect are modelled as the code has them:
- **Brace span:** the candidate JSON runs from the first "{" of the reply to a "}" that ends it, so a reply holding two objects, or text between them, is taken whole rather than as its last balanced object.
- **Fallback summary:** when the reply does not parse, the summary is the first 800 characters of the reply, trimmed again by `safeStr`, so it can be shorter than 800 even when the reply is longer.
- **Null parse:** a reply that parses to `null` makes reading `obj.english_summary` throw a TypeError, which fails the request with status 500 rather than falling back to the unparsed record.
