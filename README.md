# Carousel generator: the decisions of `api/generate.js`

`api/generate.js` is a serverless handler. It receives `{ topic, total }`, asks
Google Gemini for an Instagram carousel of `total` slides about `topic`, and
answers with `{ slides }` or `{ error }`. Around a few network calls and
header writes, the handler makes a chain of exact decisions:

- how it reads the request body (`safeParseBody`);
- the order of its checks: method, then API key, then topic;
- how it clamps the slide count, including the `|| 5` quirk;
- the prompt it builds;
- how it cleans Markdown fences off Gemini's answer;
- how it digs the slide array out of the parsed answer (`normalizeSlides`);
- which HTTP status and body each outcome produces.

This project models those decisions as pure Dafny functions and proves what
the handler promises about them. The handler has no loops and updates no
state of its own; it only writes to the response object. So the model is
datatypes, functions and lemmas, and the response is a returned value.

Modules, one file each:

- `js_values.dfy` (`JsValues`): JavaScript values as the handler sees them, truthiness, `typeof`, property reads and optional chaining.
- `js_strings.dfy` (`JsStrings`): `trim`, `trimStart`, `trimEnd`, the regular-expression `\s` class, and the decimal rendering of integers in template literals.
- `payloads.dfy` (`Payloads`): `safeParseBody` and `normalizeSlides`.
- `gate.dfy` (`Gate`): the API key, the topic test, the slide-count clamp and the prompt.
- `fences.dfy` (`Fences`): the two global `replace` calls and the final `trim`.
- `handler.dfy` (`Handler`): the whole handler as one function from request, environment and Gemini's outcome to a reply.

Some things the handler consumes are taken as parameters rather than defined:

- `JSON.parse` is a `Parser` parameter. `None` stands for its SyntaxError.
- `parseInt(total, 10)` is an `IntParser` parameter. It returns an integer, NaN, or the TypeError it throws when it cannot convert `total` to a string, as for `{"toString": 1}`.
- The call to Gemini is a function from the key and the prompt to a `Remote` outcome: it threw, its status was not ok, or it returned some data.
- The environment is an `Env` value holding the two variables.

Four things a reader might expect of a carousel generator, and that the
handler does not do, are worth stating, because the model follows the code:

- `total = 0` gives 5, not 3: `parseInt` gives 0 and `|| 5` replaces it.
- The handler does not cut the slide array down to the requested count; it returns it as it is.
- The handler has no fallback content. Every failure becomes an error status, except two exceptions thrown before its `try`, which escape the handler. One comes from destructuring a body that parses to null. The other comes from `parseInt` on a `total` it cannot convert to a string.
- The handler generates no images.

## Model

| member | source | states |
|---|---|---|
| JsValues.Get | api/generate.js:57 | a property read gives the object's own field, or undefined when there is none or when the value is not an object |
| JsValues.FirstOf | api/generate.js:119 | `?.[0]` gives an array's first element, a string's first character or an object's property "0"; an empty array, an empty string and every other value give undefined |
| JsValues.Member | api/generate.js:119 | `?.` short-circuits to undefined on null and undefined, and is the plain property read on every other value |
| Payloads.SafeParseBody | api/generate.js:6-17 | four cases: a falsy body gives `{}`; an object or array is returned unchanged; a non-empty string gives its parse, or `{}` when parsing fails; any other value gives `{}` |
| Payloads.SafeParseBodyNullish | api/generate.js:6-17 | the result is null or undefined exactly when the body is a string that JSON.parse reads as null |
| Payloads.SlidesOf | api/generate.js:21 | `Array.isArray(v.slides)` holds exactly for an object whose `slides` property is an array, and the elements are that array's |
| Payloads.NormalizeSlides | api/generate.js:19-33 | a falsy payload gives null; an object with a `slides` array gives that array unchanged; any other non-string gives null; a string can yield only its own one-level parse's array |
| Payloads.NormalizeEncodedSlides | api/generate.js:23-26 | a string whose parse carries a `slides` array yields exactly that array |
| Payloads.NormalizeParsesOnce | api/generate.js:23-32 | a string that parses to another string is not parsed a second time and gives null |
| Gate.HasApiKey | api/generate.js:53 | a key is found only when one of the two variables is set; HasApiKeyIff states it exactly |
| Gate.ApiKey | api/generate.js:52 | `GEMINI_API_KEY` unless it is unset or empty, `GOOGLE_API_KEY` otherwise |
| Gate.HasApiKeyIff | api/generate.js:52-55 | a key is found exactly when one of the two variables is a non-empty string |
| Gate.ValidTopic | api/generate.js:59 | a topic passes only if it is a non-empty string; ValidTopicIff states exactly which pass |
| Gate.ValidTopicIff | api/generate.js:59-61 | the topic passes exactly when it is a string holding a non-whitespace character |
| Gate.Total | api/generate.js:57 | the default 5 applies exactly when `total` reads as undefined |
| Gate.NumSlides | api/generate.js:63 | once parseInt has returned, the count is always in [3, 10]; NaN and 0 both give 5; values in range are kept; other values below 3 give 3; values above 10 give 10 |
| Gate.SlideCount | api/generate.js:63 | the count asked of Gemini is in [3, 10] for every body and every parseInt that does not throw |
| Gate.SlideCountDefault | api/generate.js:57-63 | without `total` the count is 5 |
| Gate.Prompt | api/generate.js:65-86 | the prompt carries no whitespace at either end; PromptText gives its full text |
| Gate.PromptText | api/generate.js:65-86 | the trimmed template is the fixed text with the count in decimal and the trimmed topic in their places; the trim removes only the line breaks around the literal |
| Gate.PromptInjective | api/generate.js:65-86 | the prompt determines the slide count and the trimmed topic it was built from |
| JsStrings.Trim | api/generate.js:129 | trimming never lengthens a string; TrimSpec states what it keeps |
| JsStrings.TrimSpec | api/generate.js:129 | `trim` keeps a slice of the input with only whitespace on either side, and leaves no whitespace at the slice's ends |
| JsStrings.TrimStartSpec | api/generate.js:127 | `\s*` consumes the longest whitespace prefix and stops at the first non-whitespace character |
| JsStrings.TrimEndSpec | api/generate.js:129 | `trimEnd` keeps a prefix, drops only whitespace, and stops at the last non-whitespace character |
| JsStrings.TrimIdempotent | api/generate.js:129 | trimming twice is trimming once |
| JsStrings.TrimEmptyIffAllWhitespace | api/generate.js:59 | `topic.trim().length === 0` exactly when the topic is all whitespace |
| JsStrings.Decimal | api/generate.js:67 | `${n}` renders a non-empty run of decimal digits |
| JsStrings.DecimalRoundTrip | api/generate.js:67 | reading the digits back gives the number |
| JsStrings.DecimalInjective | api/generate.js:115 | different numbers, including HTTP statuses in the 502 message, render differently |
| Fences.StripJsonFences | api/generate.js:127 | removing "```json" matches never lengthens the text |
| Fences.StripFences | api/generate.js:128 | removing "```" matches never lengthens the text |
| Fences.Clean | api/generate.js:126-129 | cleaning never lengthens the text |
| Fences.CleanUnpadded | api/generate.js:126-129 | the cleaned text has no whitespace at either end |
| Fences.CleanLeavesNoFence | api/generate.js:126-129 | no "```" survives cleaning |
| Fences.StripFencesLeavesNoFence | api/generate.js:128 | no "```" survives the second removal, whatever its input |
| Fences.FenceFreeUnchanged | api/generate.js:127-128 | text holding no "```" passes both removals unchanged |
| Fences.CleanFenceFree | api/generate.js:126-129 | text holding no "```" is only trimmed |
| Fences.CleanUnwrapsJsonFence | api/generate.js:126-129 | "```json" + whitespace + X + "```", with X free of "```", cleans to X trimmed |
| Fences.FencedSameAsBare | api/generate.js:126-129 | a fence-free reply wrapped in a "```json" fence cleans to the same text as the bare reply |
| Fences.JsonFencesKeepClosing | api/generate.js:127 | the first removal leaves a closing "```" after fence-free text alone |
| Fences.FencesDropClosing | api/generate.js:128 | the second removal drops exactly the closing "```" after fence-free text |
| Fences.OpeningFenceDropped | api/generate.js:127 | an opening "```json" goes together with all the whitespace after it |
| Fences.JsonTagAnyCase | api/generate.js:127 | the language tag matches in any letter case, so every casing cleans like "```json" |
| Fences.UpperCaseJsonTag | api/generate.js:127 | "```JSON" cleans exactly like "```json" |
| Handler.RawText | api/generate.js:119 | the chain yields something other than undefined only for an object with a `candidates` property; RawTextOfReply and RawTextEmptyReplies give the other cases |
| Handler.RawTextOfReply | api/generate.js:119 | the chain reads the text of the first part of the first candidate |
| Handler.RawTextMissing | api/generate.js:119 | a reply without `candidates` gives undefined |
| Handler.RawTextEmptyReplies | api/generate.js:119 | an empty `candidates` array, a first candidate without `content`, and a content whose `parts` is empty all give undefined |
| Handler.MissingTextIsBadGateway | api/generate.js:121-124 | whenever the chain gives undefined, the reply is 502 with the "no generated content" message |
| Handler.RemoteStage | api/generate.js:88-153 | after the prompt is sent the status is 200, 500, 502 or 504; an abort gives 504 with the timeout message; any other thrown error gives 500 with "Erro interno no servidor: " and its message; a status that is not ok gives 502 naming that status |
| Handler.RemoteStageTimeout | api/generate.js:145-149 | 504 exactly when the call was aborted |
| Handler.TextStage | api/generate.js:121-144 | a missing text gives 502; a text that is not a string gives 500 (its `replace` throws); unparseable cleaned text gives 502; a missing or empty slide array gives 502; otherwise 200 with the slides |
| Handler.RemoteStageSuccess | api/generate.js:139-144 | 200 exactly when the cleaned, parsed text holds a non-empty slide array, and then the body is that array unchanged: not cut or padded to the count asked for |
| Handler.Handle | api/generate.js:35-154 | OPTIONS gives 200 with no body before any other check; any other non-POST gives 405; a POST without a key gives 500 before the topic is examined; every reply is one of 200, 400, 405, 500, 502, 504 |
| Handler.HandleUncaught | api/generate.js:57-63 | an exception escapes the handler exactly when the request is admitted and either its body is a string that parses to null, or its topic is valid and parseInt throws on its `total`; in the second case the exception is parseInt's own |
| Handler.HandleTopicGate | api/generate.js:59-61 | an admitted request gets 400 exactly when its topic is invalid, and then the body is the topic message |
| Handler.HandleCallsGemini | api/generate.js:63-94 | a request that passes every check, and whose `total` parseInt reads without throwing, calls Gemini with the found key and the prompt for the clamped count and the trimmed topic; the reply depends on Gemini's outcome alone |
| Handler.HandleSuccess | api/generate.js:139-144 | a 200 after a POST always carries a non-empty slide array |

## Left out

- The `fetch` to the Gemini endpoint and the request body sent to it, including `generationConfig` (temperature, topK, topP, maxOutputTokens). Network I/O and floating point: the call is the `gemini` parameter.
- The 25-second `AbortController` timer and `clearTimeout`. Timers are not modelled; their only effect on the reply is a thrown error named "AbortError".
- CORS headers, the origin echo and the `res.status(...).json(...)` / `res.end()` writes. These are I/O; the model returns the status and body as a value.
- `process.env`, represented as the `Env` value with one optional string per variable.
- `console.error` logging, which does not affect the reply.
- The internals of `JSON.parse` (the grammar of RFC 8259) and of `parseInt`, which are parameters. They are not re-verified.
- Numbers are reals. NaN cannot come out of `JSON.parse`. An infinity (as `JSON.parse("1e999")` gives) is not represented separately; any non-zero `Num` stands for it, because the handler looks at numbers only through truthiness and `parseInt`.
- Strings are sequences of code points, not of UTF-16 code units, so a lone surrogate cannot be represented, and `?.[0]` on a string gives the first code point rather than the first code unit. No decision of the handler depends on this: a one-character string has no `content` property, so the chain gives undefined either way.
- Handler.RemoteStage: reading the body of a reply that is not ok (`geminiRes.text()`) is assumed not to throw. If it did, the `catch` would turn it into a 500 or 504.
- Handler.Handle: the messages of the two TypeErrors the handler raises itself are written as V8 phrases them, and their exact text is engine-specific. One is the error from destructuring a null body, which escapes and does not reach the response. The other is `rawText.replace is not a function`, which does reach the response, as the 500 message after "Erro interno no servidor: ".
- Gate.PromptText: the Portuguese wording of the prompt is kept verbatim, but nothing beyond its fixed text and its two substitutions is stated about it.
- Slide truncation to the requested count, fallback content, image generation and image fan-out are not done by `api/generate.js`, so they are not modelled.
