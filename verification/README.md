# OLX car listings crawler: request handler model

The crawler in `src/main.js` visits OLX Portugal car listings with one request handler that
branches on the request's label:

- A `LIST` page waits for listing cards. It then enqueues every card link as a `DETAIL` request.
  If no card shows up, it takes a diagnostic screenshot and returns.
- A `DETAIL` page waits for its heading and tries to reveal the seller's phone number. A missing
  button or any error during the reveal falls back to a fixed text. Inside the page it then runs
  an extraction callback, which:
  - reads the title, price, description and location through `safeText`;
  - cuts the city out of the location line;
  - scans the main-parameters list for the year (`Ano`), mileage (`Quilómetros`) and model
    (`Modelo`).

  Finally the page pushes one record `{url, telefone, ...dados}`.

The model has five modules, one per file:

- `Options` (`options.dfy`) holds the `Option` type.
- `Text` (`text.dfy`) holds the JavaScript string operations the handler relies on:
  - `String.prototype.trim`, with the exact ECMAScript white-space set;
  - `includes`;
  - `replace` with a string pattern, which replaces only the first occurrence;
  - `split(sep)[0]`.
- `Extraction` (`extraction.dfy`) holds the in-page callback:
  - the pure specification `Extracted`;
  - the method `Extract`, which runs the `forEach` loop over the parameter lines.
- `Phone` (`phone.dfy`) holds the phone reveal with its try/catch:
  - the specification `PhoneValue`;
  - the method `RevealPhone`, which follows the assignments of the source.
- `Handler` (`handler.dfy`) holds the label dispatch:
  - the specification `Dispatch`;
  - the method `Handle`, which runs the steps in order.

The browser appears only as data. A `Page` records:

- whether each wait succeeded;
- which calls throw;
- the links under the listing cards;
- the text of the elements the callback reads.

What the handler does is an `Outcome`: requests enqueued, a record emitted, a plain return, or a
thrown failure. A record is a `map<string, string>` from field name to value.

## Behaviour worth noting

- **Failed card wait.** When no listing card appears, the handler takes a screenshot and returns
  normally, so the crawler does not retry that request. Only a failing screenshot makes the
  handler throw.
- **Pagination.** The handler enqueues no next-page link.
- **Record fields.** The record has exactly `url`, `telefone`, `titulo`, `preco`, `descricao`,
  `cidade`, `ano`, `km` and `modelo`.
- **Phone fallbacks.** There are two fallback texts:
  - `Botão não encontrado` when the button is absent;
  - `Erro ao clicar` when any step of the reveal throws.
- **Label matching.** A parameter line matches a label by substring. A line that mentions two
  labels sets both fields. Each field keeps the line with its first `"Label: "` removed, then
  trimmed.

## Model

| member | source | states |
|---|---|---|
| Text.IsSpace | src/main.js:84 | Defines the characters `trim` removes: the ECMAScript WhiteSpace and LineTerminator code points |
| Text.Trim | src/main.js:84 | Defines `trim` as dropping leading, then trailing, white space; what it promises is stated by TrimCuts and TrimOfPadded |
| Text.IndexFrom | src/main.js:100-102 | Defines the search for `pat` from index `from` that underlies `includes` and `replace`; what it promises is stated by IndexFromFirst |
| Text.Contains | src/main.js:100-102 | Defines `includes` as that search finding an occurrence; ContainsIffOccurs states its meaning |
| Text.ReplaceFirst | src/main.js:100-102 | Defines `replace` with a string pattern; ReplaceAbsent and ReplaceFirstOccurrence state its meaning |
| Extraction.Step | src/main.js:99-102 | Defines one `forEach` turn as the three independent label tests; StepField states its effect on each field |
| Extraction.Scan | src/main.js:97-103 | Defines the `forEach` over the parameter lines in document order; ScanKeepsScraped, ScanUnmatched and ScanLastMatchWins state its result |
| Extraction.Extracted | src/main.js:83-106 | Defines the callback's result as the scan applied to the initial object; ExtractionFields states it field by field |
| Text.TrimStartCut | src/main.js:84 | Dropping leading white space keeps a suffix that does not start with white space, and everything dropped is white space |
| Text.TrimEndCut | src/main.js:84 | Dropping trailing white space keeps a prefix that does not end with white space, and everything dropped is white space |
| Text.TrimCuts | src/main.js:84 | `trim` returns a contiguous part of its input that neither starts nor ends with white space, and only white space is cut on either side |
| Text.TrimOfPadded | src/main.js:84 | A trimmed core with white space on either side trims to exactly that core |
| Text.TrimOfTrimmed | src/main.js:84 | A string that is already trimmed is unchanged by `trim` |
| Text.TrimIdempotent | src/main.js:90 | Trimming twice gives the same as trimming once |
| Text.TrimKeepsNonSpace | src/main.js:84 | A character that is not white space survives `trim`, at its position minus the leading cut |
| Text.TrimKeepsOut | src/main.js:90 | `trim` never introduces a character that was not in its input |
| Text.IndexFromFirst | src/main.js:100-102 | The index search from `from` returns the first occurrence at or after `from`, and returns none only when there is no occurrence |
| Text.ContainsIffOccurs | src/main.js:100-102 | `includes` holds exactly when the pattern occurs at some index |
| Text.ContainsAt | src/main.js:100-102 | An occurrence at any index makes `includes` true |
| Text.NotContainsFirstChar | src/main.js:100-102 | A pattern whose first character is absent from the text is not included in it |
| Text.ReplaceAbsent | src/main.js:100-102 | `replace` without an occurrence returns the text unchanged |
| Text.ReplaceFirstOccurrence | src/main.js:100-102 | `replace` substitutes exactly the first occurrence and leaves the rest of the text as it was |
| Text.ReplaceLeading | src/main.js:100-102 | Removing a leading pattern leaves exactly what followed it |
| Text.BeforeFirst | src/main.js:90 | `split(sep)[0]` is a prefix without `sep`; it is either the whole text or is followed by `sep` |
| Text.BeforeFirstAt | src/main.js:90 | A prefix without `sep` that is followed by `sep` is exactly `split(sep)[0]` |
| Text.BeforeFirstWithoutSep | src/main.js:90 | A text without `sep` comes back whole from `split(sep)[0]` |
| Extraction.SafeText | src/main.js:84 | `safeText` is always trimmed, and is `""` when the element or its `innerText` is missing |
| Extraction.SafeTextOfText | src/main.js:84 | An element's text is kept minus surrounding white space, and nothing else is cut |
| Extraction.SafeTextOfTrimmed | src/main.js:84 | Already-trimmed element text comes back unchanged |
| Extraction.City | src/main.js:90 | The city never contains `-` and is trimmed; it is `""` when the location element or its `innerText` is missing |
| Extraction.CityWithoutDash | src/main.js:90 | Location text without `-` gives the whole text, trimmed |
| Extraction.CityBeforeFirstDash | src/main.js:90 | For location text `x-rest` with no `-` in `x`, the city is `x` trimmed; the earlier whole-line trim makes no difference |
| Extraction.DashSurvivesTrim | src/main.js:90 | For `x-rest` with no `-` in `x`, trimming cuts only white space off the front of `x`, so the part before the first dash is the rest of `x` |
| Extraction.TrimKeepsDash | src/main.js:90 | For `x-rest` with no `-` in `x`, the leading white space that trimming cuts stops before the dash, and the dash stays right after what is left of `x` |
| Text.TrimDropsLeadingSpace | src/main.js:90 | Dropping a white-space prefix before trimming does not change the trimmed result |
| Text.TrimStartAfterSpace | src/main.js:84 | Leading white space makes no difference to dropping leading white space |
| Extraction.CityOfLocation | src/main.js:90 | A location `city-rest` with a trimmed city that contains no dash yields exactly that city |
| Extraction.Clean | src/main.js:100-102 | The value kept for a matching line is always trimmed |
| Extraction.Initial | src/main.js:86-94 | Before the scan, `ano`, `km` and `modelo` are `""` |
| Extraction.Extract | src/main.js:83-106 | The loop over the parameter lines returns what the callback specifies: the `safeText` fields followed by the in-order scan of all lines |
| Extraction.ScanLine | src/main.js:98-103 | One `forEach` turn runs the three independent label tests in order |
| Extraction.StepField | src/main.js:100-102 | A line sets a parameter field exactly when it mentions that label, to the cleaned line; other fields and the four `safeText` fields stay as they were |
| Extraction.StepIgnoresOtherLines | src/main.js:98-103 | A line that mentions no label leaves the object unchanged |
| Extraction.ScanKeepsScraped | src/main.js:97-103 | The scan never changes `titulo`, `preco`, `descricao` or `cidade` |
| Extraction.ScanUnmatched | src/main.js:91-103 | A field whose label no line mentions keeps its starting value |
| Extraction.ScanLastMatchWins | src/main.js:98-103 | A field holds the cleaned text of the last line that mentions its label |
| Extraction.LastMatch | src/main.js:98-103 | The index of the last line that mentions a label, or none when no line does |
| Extraction.ExtractionFields | src/main.js:83-106 | Field by field: the four `safeText` values, and each parameter is `""` when no line mentions it, otherwise the cleaned last matching line |
| Extraction.CleanOfLabelled | src/main.js:100-102 | The line `"Label: " + v` yields `v` trimmed |
| Extraction.CleanWithoutPrefix | src/main.js:100-102 | A matching line without the `"Label: "` text is kept whole, trimmed |
| Extraction.CleanOfLabelledTrimmed | src/main.js:100-102 | The line `"Label: " + v` with a trimmed `v` yields exactly `v` |
| Extraction.YearLineExample | src/main.js:100 | `"Ano: 2020"` yields the year `"2020"` |
| Extraction.MileageLineExample | src/main.js:101 | `"Quilómetros: 45 000 km"` yields the mileage `"45 000 km"`, inner spaces kept |
| Phone.PhoneValue | src/main.js:67-80 | The phone is the not-found text when there is no button, the click-error text when any step that runs throws, and otherwise the text read after the click |
| Phone.RevealPhone | src/main.js:67-80 | The default value, then an overwrite by the read text or by the catch, gives exactly that three-way result |
| Handler.Entries | src/main.js:86-94 | The extracted object contributes exactly its seven keys, none of them `url` or `telefone` |
| Handler.Assemble | src/main.js:109-113 | The record has exactly the nine keys; `url` and `telefone` survive the spread, and every extracted field is kept under its own name |
| Handler.AssembleFields | src/main.js:109-113 | Each of the nine record fields holds its own value |
| Handler.DetailRequests | src/main.js:52-55 | One `DETAIL` request per card link, in page order, with the link as URL |
| Handler.Dispatch | src/main.js:38-115 | Enqueued exactly for a `LIST` page whose cards appeared. Emitted exactly for a `DETAIL` page whose heading appeared, with the request URL, the phone value and the extracted fields. Of the faults the model represents, it fails exactly when the screenshot after a failed card wait throws, or when the heading wait fails. Any other label just returns |
| Handler.Handle | src/main.js:21-116 | The handler's steps in order produce exactly the outcome `Dispatch` specifies |
| Handler.PhoneNeverBlocksRecord | src/main.js:67-113 | Whatever the phone reveal meets, a detail page that emits still emits, with the same URL and extracted fields; only `telefone` differs |
| Handler.ListPageScenario | src/main.js:42-55 | A listing page with three cards enqueues exactly three `DETAIL` requests and emits nothing |
| Handler.ListPageWithoutCards | src/main.js:42-49 | A listing page whose card wait fails, with a successful screenshot, returns without enqueueing or emitting |
| Handler.LineMisses | src/main.js:100-102 | A labelled line does not mention a label whose first letter appears nowhere in it |
| Handler.LabelledLine | src/main.js:100-102 | The line `"Label: " + v` mentions its label and yields `v` when `v` is trimmed |
| Handler.ThreeLabelledLines | src/main.js:98-103 | Year, mileage and model lines in the site's order fill each field with its own value. The values must be trimmed, and no line may mention the label of an earlier line |
| Handler.YearFromLines | src/main.js:100 | The year line fills `ano` with its trimmed value. Neither later line overwrites it when neither mentions `Ano` |
| Handler.MileageFromLines | src/main.js:101 | The mileage line fills `km` with its trimmed value. The model line does not overwrite it when it does not mention `Quilómetros` |
| Handler.ModelFromLines | src/main.js:102 | The last line, the model line, fills `modelo` with its trimmed value |
| Handler.WellFormedScraped | src/main.js:84-90 | A trimmed title and price, no description, and a `city-rest` location whose city is trimmed and contains no dash give exactly those values before the scan |
| Handler.WellFormedExtraction | src/main.js:83-106 | A detail page extracts exactly its title, price, empty description, city, year, mileage and model when it has: a trimmed title and price, no description, a `city-rest` location with a trimmed dash-free city, and labelled lines whose values are trimmed and mention no label of an earlier line |
| Handler.DetailPageWithoutPhone | src/main.js:60-113 | Any detail page whose heading appeared and that has no show-phone button emits its record: the request URL, the not-found text and every extracted field |
| Handler.WellFormedDetailPageWithoutPhone | src/main.js:60-113 | On the well-formed page shape of WellFormedExtraction, without a show-phone button, the record holds exactly the URL, the not-found text and the page's own values |
| Handler.ClioDetailPage | src/main.js:60-113 | The Renault Clio page (`"Ano: 2020"`, `"Quilómetros: 60000 km"`, `"Modelo: Clio"`, no phone button) emits those values with the not-found phone text |

## Left out

- Actor start-up and shutdown, the proxy configuration and the seed request (`src/main.js:1-19`, `:119-121`) are not modelled, because they are platform lifecycle rather than handler logic. `Handler.MaxRequestRetries` records the retry option. The retrying, the request queue, its de-duplication, the same-host filter and URL resolution of `enqueueLinks` all belong to the crawler library and are not modelled. Card links are taken as already-resolved URLs.
- Waits and timeouts (card wait, heading wait, settle delays) are booleans on the `Page`; no time is modelled. In the program, the crawler library stops a request handler that runs past its per-request time limit, and Playwright's `click` and `textContent` may each wait up to their own timeout. So a slow phone reveal (`src/main.js:72-76`) can end the handler before `pushData` (`src/main.js:109`). Handler.PhoneNeverBlocksRecord holds only because the model has no time.
- The cookie-banner step (`src/main.js:24-35`) is not modelled as a step. Every error in it is swallowed, so it never changes the outcome by itself. The `Page` fields describe the page as it is observed after that step, including whether dismissing the banner let the later waits and clicks succeed.
- The screenshot's content and the log messages are not modelled. Only whether the screenshot throws is kept.
- `Dataset.pushData` is a sink: the record is returned in the `Outcome`. The faults of `enqueueLinks`, `page.evaluate` and `pushData` are not modelled. In the source each of them would make the handler throw, and `Handler.Dispatch` has no `Failure` case for them.
- The key order of the pushed object is not modelled, because the record is a map.
- `innerText` layout rules (hidden elements, CSS line breaks) are not modelled. An element's text is given as a string, or is absent.
- Phone.PhoneValue: assumes the read text is a string. `page.textContent` returns `null` only for non-element nodes, which the show-phone selector does not match.
- JavaScript strings are sequences of UTF-16 code units, while a Dafny `char` is a Unicode scalar value. A string holding a lone surrogate therefore cannot be represented, and text outside the Basic Multilingual Plane counts as one character instead of two.
