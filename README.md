# dnsaudit: the result renderer and the run decision, in Dafny

dnsaudit is a small command-line client for the RIPEstat zonemaster endpoint.
Given `-domain` and `-update`, it only asks the endpoint to start a new scan.
Given `-domain` alone, it asks for cached zonemaster results. If there are
none, it asks for a new scan. Otherwise it fetches the details of the first
cached result and prints the diagnostic records on one line. Each record is printed as `[level] [module] message` with
ANSI colour escapes. Records of the internal `SYSTEM` module are skipped.

The project models the two deterministic parts of `main.go`:

- `ansi.dfy` (module `Ansi`) holds the text primitives.
  - ASCII upper-case folding is `Upper`, and `FoldsTo` is the same test made character by character.
  - Decimal formatting of a colour code is `Decimal`; it is `%d` for a natural number.
  - `printColoredText` is `Colored`. The parser `Uncolor` reads back what `Colored` writes, and accepts nothing else.
- `render.dfy` (module `Render`) is the result renderer.
  - It has the records, the level colour and the text of one record (`Entry`).
  - `Output` specifies the whole printed text.
  - `RenderDetails` is the render loop, proved against `Output`.
  - The properties of the printed text are lemmas about `Output` and `Body`.
- `orchestrator.dfy` (module `Orchestrator`) is the decision tree of `main`.
  - `Run` is a pure function of the domain, the update flag and a `Network`.
  - The `Network` is the endpoint's answers, given as functions from resource to result.
  - `Run` returns the trace of requests and printed messages, in order.
  - `Requests` and `Lines` project the trace onto its requests and its messages.
- `outcomes.dfy` (module `Outcomes`) holds the `Option` and `Result` datatypes.

Notes on the modelling:

- **Upper-case test.** The record filter and the level switch upper-case a string and compare it with a constant. The model decides this one character at a time (`FoldsTo`). `FoldsToIsUpperEq`, `SystemByUpper` and `LevelColorTotal` prove that this is the same as comparing `Upper(s)` with the constant. `RenderDetails` itself makes the comparison on `Upper`, as `main.go` does.
- **Message escape.** `main.go:178` writes the message escape inline. `Entry` writes it as `Colored(33, message)`; `MessageEscapeIsColored` proves the two texts are equal.
- **Narratives.** A status narrative is several printed lines, but `Line` keeps each one as a single message.
  - `ScanStarted` stands for the text at `main.go:110-118`.
  - `RetryScanStarted` stands for the text at `main.go:138-144`.
  - The two narratives differ in wording: line 116 suggests `-domain` and line 142 suggests `-d`. Only which narrative is printed is modelled.
- **Order of messages and requests.** The trace keeps the order of `main.go`.
  - With `-update`, the scan request comes before any message (lines 104-110).
  - After an empty summary, the notice comes before the scan request (lines 129-132).

## Model

| member | source | states |
|---|---|---|
| Ansi.UpperCharAlphabet | main.go:158 | each of the 26 small letters becomes the capital at the same place in the alphabet, every other character is kept, and no small letter is left |
| Ansi.UpperChar | main.go:158-160 | definition of the per-character ASCII fold; `UpperCharAlphabet` states its property |
| Ansi.Upper | main.go:158 | definition of the ASCII part of `strings.ToUpper`; `FoldsToIsUpperEq` and `UpperIdempotent` state its properties |
| Ansi.FoldsToIsUpperEq | main.go:158-161 | the character-by-character test holds exactly when the upper-cased string equals the constant |
| Ansi.UpperIdempotent | main.go:158 | upper-casing twice is upper-casing once, and no lower-case letter is left |
| Ansi.Decimal | main.go:74 | definition of the `%d` text of a colour code; `DecimalWellFormed`, `DecimalRoundTrip` and `DecimalOfParse` state its properties |
| Ansi.DecimalWellFormed | main.go:74 | the `%d` text of a colour code is non-empty and all digits, has no leading zero, and is one digit exactly below 10 |
| Ansi.DecimalRoundTrip | main.go:74 | reading the `%d` text back as a decimal number gives the code |
| Ansi.Colored | main.go:73-75 | definition of what `printColoredText` writes; `UncolorColored`, `UncolorSound` and `DecimalRoundTrip` state its properties |
| Ansi.UncolorColored | main.go:73-75 | the coloured segment `ESC[` code `m` text `ESC[0m` parses back to exactly its code and its text |
| Ansi.UncolorSound | main.go:73-75 | every string the parser accepts is exactly the coloured segment of the code and text it returns, so `Colored` is one-to-one |
| Ansi.DecimalOfParse | main.go:74 | digits with no leading zero are the `%d` text of the number they spell |
| Render.LevelColor | main.go:160-171 | definition of the level switch; `LevelColorTotal` states its property |
| Render.LevelColorTotal | main.go:160-171 | the level colour is one of 31, 32, 33, 35, 37; it is 32 exactly for INFO, 33 exactly for WARNING, 31 exactly for ERROR and 35 exactly for NOTICE (upper-cased), and 37 for any other level |
| Render.LevelColorIgnoresCase | main.go:160 | two levels with the same upper-case spelling get the same colour |
| Render.LevelColorExamples | main.go:160-171 | "warning", "Warning" and "WARNING" are all yellow (33); the unknown level "DEBUG" is white (37) |
| Render.MessageEscapeIsColored | main.go:178 | the inline message escape is the same text as a segment coloured 33 |
| Render.SystemByUpper | main.go:158 | a record is skipped exactly when its module upper-cases to "SYSTEM" |
| Render.SystemInAnyCase | main.go:158 | the modules "system", "System" and "SYSTEM" are skipped; "DNS" is not |
| Render.IsSystem | main.go:158 | definition of the SYSTEM test; `SystemByUpper` states its property |
| Render.Entry | main.go:173-178 | definition of the text of one shown record; `MessageEscapeIsColored` and `ShownInInputOrder` state its properties |
| Render.Output | main.go:156-189 | definition of the whole printed text; `RenderDetails` and `OnlyNewlineWhenAllSystem` state its properties |
| Render.Separator | main.go:180-182 | definition of the separator after a shown record; `SpanShownStep`, `LastEntryHasNoSpace` and `SpaceBeforeTrailingSystem` state its properties |
| Render.SpanShownStep | main.go:173-182 | step lemma of the render loop: a shown record adds its entry, then a space exactly when it is not the last record of the unfiltered list |
| Render.SpanHiddenStep | main.go:158 | step lemma of the render loop: a SYSTEM record adds nothing, not even a separator |
| Render.RenderDetails | main.go:156-189 | the render loop writes exactly `Output(results)`: the shown records and one newline, or the no-results line for an empty list |
| Render.KeptIndices | main.go:157-158 | every kept index is in range and names a shown record |
| Render.KeptIndicesIncreasing | main.go:157 | the kept indices are strictly increasing, so they follow the input order |
| Render.KeptIndicesComplete | main.go:158 | every shown record below the bound is among the kept indices |
| Render.SpanIsKeptEntries | main.go:157-184 | the text written so far is the kept entries, each followed by its own separator |
| Render.ShownInInputOrder | main.go:157-184 | the printed records are exactly the non-SYSTEM ones, in input order, each as its `Entry`, each with the separator of its index in the unfiltered list |
| Render.SystemContentIrrelevant | main.go:158-184 | replacing a SYSTEM record by any other SYSTEM record, whatever its level and message, leaves the output unchanged |
| Render.OnlyNewlineWhenAllSystem | main.go:156-189 | a non-empty list of only SYSTEM records prints just a newline; an empty list prints the no-results line |
| Render.SpaceSeparatedWithoutSystem | main.go:157-185 | without SYSTEM records the line is the entries joined by single spaces, with no trailing space |
| Render.LastEntryHasNoSpace | main.go:180-182 | last step of the render loop: a shown last record is not followed by a space |
| Render.SpaceBeforeTrailingSystem | main.go:180-182 | a shown record followed only by SYSTEM records keeps its space, so the line ends with a space before the newline |
| Render.ThreeRecordExample | main.go:156-185 | DNS/WARNING, SYSTEM/ERROR, NS/INFO print as the first and third entries separated by one space |
| Orchestrator.Run | main.go:97-154 | every run ends with a printed message; it begins with the usage hint exactly when the domain is empty, with the scan request under `-update`, and with the summary request otherwise |
| Orchestrator.EmptyDomainNoRequest | main.go:97-100 | with no domain, only the usage hint is printed and nothing is requested |
| Orchestrator.UpdateForcesScan | main.go:102-120 | with `-update`, the only request is the scan request for the domain, followed by the scan-started narrative or the scan error |
| Orchestrator.UpdateIgnoresCache | main.go:102-120 | with `-update`, the run depends only on the answer to the scan request |
| Orchestrator.ForcedScanLine | main.go:105-118 | definition of the line printed after the `-update` scan request; `UpdateForcesScan` states its property |
| Orchestrator.SummaryErrorStops | main.go:122-126 | a failed summary request prints "Error:" with the error; no scan and no details are requested |
| Orchestrator.EmptySummaryTriggers | main.go:128-147 | an empty summary prints the no-cached-results notice, then requests a scan for the same domain; details are never requested |
| Orchestrator.RetryScanLine | main.go:133-144 | definition of the line printed after the scan request that follows an empty summary; `EmptySummaryTriggers` states its property |
| Orchestrator.FirstHandleUsed | main.go:149-154 | with cached results, the requests are the summary and then the details of the first result id; one message follows |
| Orchestrator.OnlyFirstHandleMatters | main.go:149-150 | two summaries whose first ids agree lead to the same run |
| Orchestrator.DetailsErrorRendersNothing | main.go:150-154 | a failed details request prints "Error:" with the error and renders nothing |
| Orchestrator.SuccessRenders | main.go:149-189 | a successful details request prints exactly the rendered records of that response |
| Orchestrator.DetailsLine | main.go:151-154 | definition of the line printed after the details request; `DetailsErrorRendersNothing` and `SuccessRenders` state its properties |
| Orchestrator.RequestsOfAnyRun | main.go:97-154 | every run makes at most two requests and never both a scan and a details request; a details request is for the first id of a non-empty summary |
| Orchestrator.LinesOfAnyRun | main.go:97-189 | every run prints one or two messages; rendered details appear only after a successful details request, and they are that response rendered |

## Left out

- The HTTP requests, their URLs and the JSON decoding (`getZonemasterResults`, `getZonemasterDetailsResults`, the scan requests at main.go:104 and 132) are left out, because they are network I/O. Their answers are the `Network` parameter. A decoding failure is one more `Err`.
- The response body of the scan requests is never closed (main.go:104, 132). The model has no resources, so this is not represented.
- Envelope fields of the summary response that no code reads (`messages`, `see_also`, `version`, `cached`, and the rest) are left out.
- Flag parsing and the start-up banner (main.go:78-95) are library-driven start-up output and are not modelled.
- Pauses (`time.Sleep`) only pace the output and are not modelled.
- The exact wording of the status narratives is left out; each narrative is one `Line` constructor.
- The process exit status is left out; every branch of `main` returns normally.
- Ansi.Upper: folds ASCII letters only. Go's `strings.ToUpper` also folds other scripts, and it maps the dotless `ı` (U+0131) to `I` and the long `ſ` (U+017F) to `S`. So a module spelled with those letters, such as `ſYſTEM`, is skipped by the program but shown by the model. Levels are affected in the same way: the program colours `ınfo`, `warnıng` and `notıce` 32, 33 and 35 (main.go:160-168), while `LevelColor` gives them 37.
- Ansi.Decimal: covers natural numbers only, while `%d` also prints negative numbers. Every colour code `main.go` uses is between 31 and 37.
- Render.RenderDetails: writes into a string that it returns. The program writes segment by segment to standard output, and a write error is ignored there.
