# BillBuddy core, modelled in Dafny

BillBuddy is a medical-bill analyzer. A user uploads a scan. OCR extracts its text. A language model turns the text into a structured bill. A validation pass then flags duplicate charges, invalid billing codes and overcharges. This project models the deterministic core of that pipeline as pure functions over immutable data, and proves properties about it:

- `Bill`, `ValidationReference`, `AnthropicService`, `OpenAIService`, `ValidationProperties` model the validation pass `runValidationChecks`, which exists twice, once per language-model provider.
  - It is written as the two loops the code runs: a duplicate scan keyed on `code + "_" + description`, then a per-item code/price check.
  - It is proved equal to a declarative reference that lists which item raises which finding, in which order.
  - Counts, ordering, severities and the shape of every record follow from that equality.
  - The OpenAI copy is proved to return exactly what the Anthropic copy returns.
  - The code validator `validateMedicalCode` and the benchmark check `isOvercharged` live in files outside this model. They are function-typed parameters, so every property holds for every pair of oracles.
- `AnthropicService` and `OpenAIService` also hold the row mapping of `saveLineItems`, the record defaults of `saveAnalysis`, and the removal of Markdown code fences before `JSON.parse`.
- `OcrClean` models `cleanExtractedText`: collapse every whitespace run to a space, drop non-ASCII, trim.
- `OcrPatterns` models `extractBillPatterns`.
  - Each regular expression is a matcher at a position, with the engine's backtracking order spelled out.
  - A generic `exec` loop with the `g` flag runs each matcher.
  - The loop reports only real matches, never overlapping, in text order, and misses none.
- `FileUploader` and `Dashboard` model the pure fragments of two React components.
  - From the uploader: the file acceptance rule, the file extension, the OCR progress band, and the progress label and steps.
  - From the dashboard: the search filter, the statistics, the status badge, the issue count and the summary preview.
- `Js` and `Text` supply the JavaScript semantics the above rely on:
  - `||` defaults, `undefined` in template strings, number rendering;
  - the ECMAScript `\s` set, `trim`, `\b`, ASCII `toLowerCase`, `includes`;
  - global `replace` of a token.

JSON `null` and a missing property are both `None`. An object's fields are datatype fields.

The validation pass has no modifier stripping, no code-equivalence classes and no savings for duplicates. It runs the benchmark check for every truthy CPT code, whether or not the code validated.

## Model

| member | source | states |
|---|---|---|
| AnthropicService.RunValidationChecks | src/services/aiAnalysis.js:151-238 | the result's `totalIssues` is the number of flags |
| AnthropicService.RunMatchesReference | src/services/aiAnalysis.js:151-238 | the two loops as written return exactly the result of applying the declarative findings (duplicates by index, then per item invalid code before overcharge) to the empty result |
| AnthropicService.ScanDuplicatesFollowsReference | src/services/aiAnalysis.js:162-180 | the duplicate scan with a map holding exactly the keys of earlier items records one duplicate per item whose key repeats an earlier key, in item order |
| AnthropicService.KeysBeforeStep | src/services/aiAnalysis.js:165-179 | an item's key is in the map iff an earlier item has the same key, and the map grows by exactly that key |
| AnthropicService.CheckItemsFollowsReference | src/services/aiAnalysis.js:182-234 | the per-item loop records exactly the invalid-code and overcharge findings of the remaining items, in order |
| AnthropicService.DuplicateFindingsStep | src/services/aiAnalysis.js:164-180 | applying the duplicate findings from an index is recording the item there if it repeats, then applying the rest |
| AnthropicService.RowOf | src/services/aiAnalysis.js:133-141 | a row carries the bill id, the description or "Unknown", the code and code type or null when falsy, the charge or 0, the quantity or 1 (also for 0), no service date |
| AnthropicService.LineItemRows | src/services/aiAnalysis.js:130-141 | no rows iff the list is absent or empty; otherwise one row per item, in order, each with the defaults above |
| AnthropicService.RowsAreNormalForm | src/services/aiAnalysis.js:133-141 | mapping a row back to an item and mapping again gives the same row: the defaults are a normal form |
| AnthropicService.AnalysisRow | src/services/aiAnalysis.js:295-305 | the record keeps the bill id and the report; total flags default 0, savings default 0, summary "Analysis complete" when falsy and never empty, recommendations [] when absent |
| AnthropicService.StripCodeFences | src/services/aiAnalysis.js:119-123 | the cleaned reply is no longer than the reply and neither starts nor ends with whitespace |
| AnthropicService.PlainReplyIsOnlyTrimmed | src/services/aiAnalysis.js:120-123 | a reply without backticks is only trimmed |
| AnthropicService.FencedReplyYieldsBody | src/services/aiAnalysis.js:281-284 | a reply "```json\n" + body + "\n```" with a backtick-free body yields the trimmed body |
| AnthropicService.RemoveOpeningFence | src/services/aiAnalysis.js:121 | the `json` fence and the newline after it are removed, the scan resuming after them |
| AnthropicService.RemoveJsonFenceOfShortTail | src/services/aiAnalysis.js:121 | a closing fence alone does not match the `json` fence pattern |
| AnthropicService.RemoveFenceOfFence | src/services/aiAnalysis.js:122 | a bare fence is removed entirely |
| ValidationReference.DuplicateFindings | src/services/aiAnalysis.js:162-180 | every finding of the duplicate phase is a duplicate of an item at or after the start whose key an earlier item has |
| ValidationReference.DuplicateFindingsExact | src/services/aiAnalysis.js:162-180 | item i gets a duplicate finding iff an earlier item has the same key |
| ValidationReference.DuplicateFindingsOrdered | src/services/aiAnalysis.js:163-180 | duplicate findings come in increasing item order |
| ValidationReference.ItemFindings | src/services/aiAnalysis.js:185-220 | an item's findings name that item, are never duplicates, and each is justified: an invalid code is a truthy code and type the validator rejects, an overcharge a truthy CPT code the checker reports |
| ValidationReference.CheckFindings | src/services/aiAnalysis.js:182-234 | every finding of the item phase names an item at or after the start, is not a duplicate, and is justified by its oracle |
| ValidationReference.CheckFindingsExact | src/services/aiAnalysis.js:182-234 | an invalid-code finding for item i iff its code and type are truthy and the validator rejects; an overcharge finding iff its code is truthy, its type is "CPT" and the checker reports overcharged |
| ValidationReference.CheckFindingsOrdered | src/services/aiAnalysis.js:183-234 | item-phase findings follow item order, an item's invalid code before its overcharge |
| ValidationReference.Findings | src/services/aiAnalysis.js:151-238 | every finding of a pass names an item of the bill and is justified: a repeated key, a rejected code or a reported overcharge |
| ValidationReference.FindingsExact | src/services/aiAnalysis.js:151-238 | each kind of finding is present for exactly the items that call for it |
| ValidationReference.FindingsOrdered | src/services/aiAnalysis.js:162-234 | findings are ordered duplicates first, then by item, invalid code before overcharge |
| ValidationReference.ApplyAppendsFlags | src/services/aiAnalysis.js:172-219 | applying findings appends exactly one flag per finding, in order, and keeps the earlier flags |
| ValidationReference.ApplyKeepsInvariants | src/services/aiAnalysis.js:167-219 | applying findings keeps every detail array in step with the flags of its kind and keeps severities fixed per kind |
| ValidationReference.ApplyConcat | src/services/aiAnalysis.js:164-234 | applying two finding lists in turn is applying their concatenation |
| Bill.RecordDuplicateKeepsInvariants | src/services/aiAnalysis.js:167-177 | pushing a duplicate record and its high flag keeps the detail arrays in step with the flags and the severities fixed |
| Bill.RecordInvalidCodeKeepsInvariants | src/services/aiAnalysis.js:188-198 | likewise for an invalid-code record and its medium flag |
| Bill.RecordOverchargeKeepsInvariants | src/services/aiAnalysis.js:206-220 | likewise for an overcharge record and its high flag |
| Bill.OfKind | src/services/aiAnalysis.js:172-219 | the flags of one kind are flags of the result, of that kind, no more of them than flags |
| ValidationProperties.NoItemsNoIssues | src/services/aiAnalysis.js:152-160 | an absent or empty item list gives empty flags, duplicates, overcharges and invalid codes and zero issues |
| ValidationProperties.FlagsFollowFindings | src/services/aiAnalysis.js:151-238 | flag k is the flag of finding k, and there are exactly as many flags as findings and issues |
| ValidationProperties.DuplicatesComeFirst | src/services/aiAnalysis.js:162-234 | every duplicate flag precedes every invalid-code and overcharge flag |
| ValidationProperties.CheckFlagsFollowItems | src/services/aiAnalysis.js:183-234 | phase-two flags follow item order, and an item's invalid-code flag precedes its overcharge flag |
| ValidationProperties.ResultWellFormed | src/services/aiAnalysis.js:164-236 | `totalIssues == |flags|`, each detail array matches its flags, severities are high/medium/high, every duplicate record has two occurrences |
| ValidationProperties.IssueCounts | src/services/aiAnalysis.js:162-234 | duplicates = duplicate flags = items repeating an earlier key; invalid codes = invalid-code flags = rejected truthy codes; overcharges = overcharge flags = CPT items reported overcharged |
| ValidationProperties.ApplyCounts | src/services/aiAnalysis.js:167-219 | applying findings adds as many detail records and flags of each kind as findings of that kind |
| ValidationProperties.CountKindConcat | src/services/aiAnalysis.js:164-234 | per-kind counts of findings add up over concatenation |
| ValidationProperties.DuplicateFindingsCount | src/services/aiAnalysis.js:164-180 | the duplicate phase yields one duplicate finding per repeating item and no other kind |
| ValidationProperties.CheckFindingsCount | src/services/aiAnalysis.js:183-234 | the item phase yields no duplicates, one invalid code per rejected code, one overcharge per reported overcharge |
| ValidationProperties.ItemFindingsCount | src/services/aiAnalysis.js:185-220 | one item yields at most one invalid-code and one overcharge finding, exactly when its oracles say so |
| ValidationProperties.UntypedItemsNoCheckFindings | src/services/aiAnalysis.js:185-205 | items without a code type raise no invalid-code or overcharge finding, whatever the oracles say |
| ValidationProperties.SingleItemFindings | src/services/aiAnalysis.js:163-220 | a one-item bill has no duplicate, only that item's own check findings |
| ValidationProperties.ThreeIdenticalItems | src/services/aiAnalysis.js:163-180 | three identical items give two duplicate records and two duplicate flags, and the first two flags are the item's duplicate flag: only the first occurrence goes unflagged |
| ValidationProperties.TwoPlainItems | src/services/aiAnalysis.js:165-166 | two items without code type give one duplicate flag for the second iff their keys are equal, no flag otherwise |
| ValidationProperties.KeyCollision | src/services/aiAnalysis.js:165 | ("a_b", "c") and ("a", "b_c") are reported as duplicates: the key is a plain concatenation |
| ValidationProperties.MissingCodeMatchesUndefined | src/services/aiAnalysis.js:165 | an item without code duplicates one whose code is the string "undefined" |
| ValidationProperties.InvalidAndOvercharged | src/services/aiAnalysis.js:185-220 | a rejected CPT code that is also overcharged gets both flags, invalid code first, and the overcharge flag carries the oracle's savings |
| OpenAIService.RunValidationChecks | src/services/aiAnalysisOpenAI.js:140-221 | the result's `totalIssues` is the number of flags |
| OpenAIService.RunAgreesWithAnthropic | src/services/aiAnalysisOpenAI.js:140-221 | for every bill and every pair of oracles the OpenAI pass returns exactly the Anthropic pass's result |
| OpenAIService.ScanDuplicatesAgree | src/services/aiAnalysisOpenAI.js:151-168 | storing the item instead of its index does not matter: only the map's keys are read |
| OpenAIService.CheckItemsAgree | src/services/aiAnalysisOpenAI.js:170-218 | the item loops of both copies agree from every index and starting result |
| OpenAIService.LineItemRows | src/services/aiAnalysisOpenAI.js:120-131 | the rows equal the Anthropic copy's rows for every bill id and list |
| OpenAIService.AnalysisRow | src/services/aiAnalysisOpenAI.js:275-288 | the record equals the Anthropic copy's record for every report |
| OpenAIService.StripCodeFences | src/services/aiAnalysisOpenAI.js:111-114 | the cleaned reply equals the Anthropic copy's for every reply |
| OcrClean.CleanExtractedText | src/services/ocrService.js:93-106 | a falsy input gives ""; otherwise the output is no longer than the input, all ASCII, its only whitespace is a plain space, and it neither starts nor ends with whitespace |
| OcrClean.CollapseWhitespace | src/services/ocrService.js:97 | the result is no longer than the input, has only spaces as whitespace and no two in a row, and starts with whitespace iff the input does |
| OcrClean.RemoveNonAscii | src/services/ocrService.js:100 | the result is no longer than the input and all ASCII |
| OcrClean.RemoveNonAsciiKeepsEveryAscii | src/services/ocrService.js:100 | every ASCII character occurs as often after the removal as before |
| OcrClean.CleanKeepsVisible | src/services/ocrService.js:93-106 | cleaning keeps the sequence of visible ASCII characters of the input unchanged |
| OcrClean.VisibleOfCollapse | src/services/ocrService.js:97 | collapsing whitespace keeps the visible characters |
| OcrClean.VisibleOfRemoveNonAscii | src/services/ocrService.js:100 | removing non-ASCII keeps the visible ASCII characters |
| OcrClean.VisibleOfTrim | src/services/ocrService.js:103 | trimming keeps the visible characters |
| OcrClean.CleanIdempotentOnAscii | src/services/ocrService.js:93-106 | on ASCII input, cleaning twice is cleaning once |
| OcrClean.CleanKeepsCleanText | src/services/ocrService.js:93-106 | ASCII text with single interior spaces and no outer whitespace is a fixed point |
| OcrClean.CleanedAsciiHasNoRuns | src/services/ocrService.js:97-103 | cleaning ASCII input leaves no two whitespace characters in a row |
| OcrClean.CleanNotIdempotent | src/services/ocrService.js:97-100 | "a é b" cleans to "a  b", which cleans to "a b": removing the accent after collapsing leaves two spaces |
| OcrClean.CleanSteps | src/services/ocrService.js:97-103 | non-empty input goes through collapse, removal and trim, in that order |
| OcrClean.TrimIsSlice | src/services/ocrService.js:103 | the trimmed text is the slice of the text that starts after its leading whitespace |
| OcrClean.TrimCutsWhitespace | src/services/ocrService.js:103 | everything trimming cuts off, at either end, is whitespace |
| OcrClean.CollapseKeepsCollapsed | src/services/ocrService.js:97 | text whose only whitespace is single spaces is unchanged by the collapse |
| OcrClean.CollapseRun | src/services/ocrService.js:97 | a non-empty run of whitespace becomes exactly one space |
| OcrClean.CollapseConcat | src/services/ocrService.js:97 | the collapse works piece by piece across any cut that does not fall inside a whitespace run; with the two rows above this fixes the result: each run becomes one space and all other characters stay in order |
| OcrPatterns.DateAt | src/services/ocrService.js:118 | a date match has 1-2 digits, a separator, 1-2 digits, a separator, 2-4 digits, with `\b` on both sides |
| OcrPatterns.DateAtComplete | src/services/ocrService.js:118 | every such date at a word boundary is the one the match reports, so a date has a unique split into month, day and year |
| OcrPatterns.YearAtFinds | src/services/ocrService.js:118 | a year of 2-4 digits followed by a word boundary is read with exactly that length |
| OcrPatterns.DayYearAtFinds | src/services/ocrService.js:118 | a day of 1-2 digits, a separator and such a year are read with exactly those lengths |
| OcrPatterns.MonthDateAtFinds | src/services/ocrService.js:118 | a date whose month has the given length is found by the attempt with that month length |
| OcrPatterns.AmountAt | src/services/ocrService.js:125 | an amount match starts at "$", everything between "$" and its group is whitespace, the group starts with a digit and ends the match; there is no match iff no "$" stands there or no digit follows the whitespace after it |
| OcrPatterns.AmountWithoutSeparatorIsCut | src/services/ocrService.js:125 | in "$1234.56" the captured amount is "123" |
| OcrPatterns.CptAt | src/services/ocrService.js:131 | a CPT match at i iff five digits stand there between word boundaries |
| OcrPatterns.IcdAt | src/services/ocrService.js:137 | an ICD-10 match is an uppercase letter, two digits and an optional dot with one or two digits, between word boundaries |
| OcrPatterns.AccountAt | src/services/ocrService.js:143 | an account match's group is a non-empty digit run that starts after the label position and ends the match |
| OcrPatterns.Scan | src/services/ocrService.js:120-146 | the `exec` loop reports only real matches, in increasing positions, never overlapping |
| OcrPatterns.ScanMissesNothing | src/services/ocrService.js:120-146 | no match starts before the first reported one, between two reported ones, or after the last |
| OcrPatterns.Groups | src/services/ocrService.js:121-145 | each reported value is the text of its match's group |
| OcrPatterns.GroupsInTextOrder | src/services/ocrService.js:120-146 | successive values occur in the text one after another |
| OcrPatterns.ExtractBillPatterns | src/services/ocrService.js:109-149 | every date has the date shape, every amount is digits with optional ".dd" and no comma, every code is a 5-digit CPT or an ICD-10 code, CPT codes precede ICD-10 codes, every account number is digits |
| OcrPatterns.ExtractedTokensAreMatches | src/services/ocrService.js:109-149 | the dates are the date matches, the amounts the amount groups without commas, the codes the CPT groups tagged "CPT" then the ICD-10 groups tagged "ICD-10", the account numbers the account groups, each in the order the `exec` loop reports them |
| OcrPatterns.EmptyFieldsIffNoMatch | src/services/ocrService.js:109-149 | a field of the result is empty iff its expressions match nowhere in the text |
| OcrPatterns.NoGroupsIffNoMatch | src/services/ocrService.js:120-146 | an `exec` loop reports nothing iff its expression matches at no position of the text |
| OcrPatterns.Amounts | src/services/ocrService.js:125-128 | one amount per match: its group with the commas removed, of amount shape |
| OcrPatterns.Codes | src/services/ocrService.js:131-140 | all CPT codes, then all ICD-10 codes, each of its shape |
| OcrPatterns.MonthDateAt | src/services/ocrService.js:118 | a date read with a month of the given length lies in the text, has that month length, and ends at a word boundary |
| OcrPatterns.DateMatchHasDateForm | src/services/ocrService.js:118 | the group of a date match lies in the text and has the date shape |
| OcrPatterns.Dates | src/services/ocrService.js:118-122 | one date per reported match, in order, each the matched text and of the date shape |
| OcrPatterns.AccountNumbers | src/services/ocrService.js:143-146 | one account number per reported match, in order, each the matched digit group and of the account shape |
| OcrPatterns.IcdCodesHaveIcdForm | src/services/ocrService.js:137-140 | every reported ICD-10 code is a letter, two digits and an optional dot with one or two digits |
| OcrPatterns.AmountValueForm | src/services/ocrService.js:125-127 | the group of an amount match, commas removed, is digits with an optional ".dd" |
| OcrPatterns.ThousandsAreDigits | src/services/ocrService.js:125-127 | the comma groups after the leading digits leave only digits once the commas are removed |
| OcrPatterns.DatesHaveDateForm | src/services/ocrService.js:118-122 | every reported date splits as month, day and year of the stated lengths |
| OcrPatterns.CptCodesHaveCptForm | src/services/ocrService.js:131-134 | every reported CPT code is exactly five digits |
| OcrPatterns.AccountNumbersHaveForm | src/services/ocrService.js:143-146 | every reported account number is a non-empty digit run |
| OcrPatterns.AmountsHaveAmountForm | src/services/ocrService.js:125-128 | every reported amount is digits with an optional ".dd" |
| OcrPatterns.RemoveCommas | src/services/ocrService.js:127 | the result holds no comma |
| OcrPatterns.RemoveCommasKeepsOthers | src/services/ocrService.js:127 | every character other than a comma occurs in the result as often as in the text |
| OcrPatterns.RemoveCommasConcat | src/services/ocrService.js:127 | removing commas from two joined texts is removing them from each and joining, so the kept characters stay in order |
| OcrPatterns.RemoveCommasKeepsCommaFree | src/services/ocrService.js:127 | a text without commas is unchanged |
| FileUploader.HandleFileSelect | src/components/upload/FileUploader.jsx:13-32 | no file changes nothing; a file is held and the error cleared iff its type is allowed and it is at most 10 MiB; a rejection sets the type error when the type is wrong, else the size error, and keeps the previous file |
| FileUploader.ExactlyTenMebibytesAccepted | src/components/upload/FileUploader.jsx:24 | a file of exactly 10 MiB is accepted |
| FileUploader.OversizedWrongTypeGetsTypeError | src/components/upload/FileUploader.jsx:17-27 | an oversized file of a wrong type gets the type error |
| FileUploader.FileExtension | src/components/upload/FileUploader.jsx:47 | the extension is a dot-free suffix of the name, preceded by a dot unless it is the whole name |
| FileUploader.ExtensionOfDottedName | src/components/upload/FileUploader.jsx:47 | for any base, base + "." + ext gives back ext when ext has no dot |
| FileUploader.ExtensionOfUndottedName | src/components/upload/FileUploader.jsx:47 | a name without a dot is its own extension |
| FileUploader.SplitPiecesSepFree | src/components/upload/FileUploader.jsx:47 | no piece of `split('.')` holds a dot |
| FileUploader.LastPieceIsFinalSegment | src/components/upload/FileUploader.jsx:47 | the piece `pop()` returns is a final segment of the name, preceded by a dot unless it is the whole name |
| FileUploader.LastPieceLength | src/components/upload/FileUploader.jsx:47 | the last piece is the whole name iff the name splits into one piece, and is shorter otherwise |
| FileUploader.JoinSplit | src/components/upload/FileUploader.jsx:47 | joining the pieces with dots gives the name back |
| FileUploader.OcrStageProgress | src/components/upload/FileUploader.jsx:69 | the bar shows 30 plus the integer nearest to 0.4 times the OCR percentage |
| FileUploader.OcrStageInBand | src/components/upload/FileUploader.jsx:69 | for OCR progress 0..100 the bar stays within 30..70, from 30 to 70 |
| FileUploader.OcrStageMonotone | src/components/upload/FileUploader.jsx:69 | more OCR progress never moves the bar back |
| FileUploader.LabelStage | src/components/upload/FileUploader.jsx:250-252 | each progress value falls in exactly one label stage: below 30, 30 to 74, 75 to 99, 100 and above |
| FileUploader.LabelsDistinct | src/components/upload/FileUploader.jsx:250-252 | two values get the same label text iff they are in the same stage |
| FileUploader.StepsExclusive | src/components/upload/FileUploader.jsx:266-280 | at any progress at most one step is active and no step is both completed and active |
| FileUploader.StepsLagLabel | src/components/upload/FileUploader.jsx:250-280 | at 30 the label says extracting while the upload step is active, at 75 it says analyzing while the OCR step is active |
| FileUploader.AlignedStepsFollowLabel | src/components/upload/FileUploader.jsx:250-280 | with the label's boundaries the active step is the one the label names and the steps before it are completed |
| Dashboard.FilterBills | src/pages/Dashboard.jsx:172-176 | the listed bills are a subsequence of the bills in their order, and a bill is listed iff it is fetched and the query keeps it |
| Dashboard.FilterBillsKeepsCopies | src/pages/Dashboard.jsx:172-176 | a bill the query keeps is listed as many times as it was fetched, any other bill never |
| Dashboard.EmptyQueryKeepsAll | src/pages/Dashboard.jsx:172-173 | an empty query lists every bill |
| Dashboard.KeepsIffContains | src/pages/Dashboard.jsx:173-175 | a non-empty query keeps a bill iff the lower-cased provider or file name contains the lower-cased query |
| Dashboard.NamelessNeverKept | src/pages/Dashboard.jsx:173-175 | a bill with neither name is never listed for a non-empty query |
| Dashboard.SearchIgnoresCase | src/pages/Dashboard.jsx:174-175 | "CITY" finds "City General", and "city" finds "BILL_City.pdf" |
| Dashboard.TotalBills | src/pages/Dashboard.jsx:46 | the bill count is the number of fetched bills, 0 when the fetch yields null |
| Dashboard.TotalBillsCountsListed | src/pages/Dashboard.jsx:46 | the bill count equals the number of rows listed while the search box is empty |
| Dashboard.FlagsOf | src/pages/Dashboard.jsx:41 | a bill contributes its first analysis's total flags, 0 without analysis or count |
| Dashboard.TotalFlags | src/pages/Dashboard.jsx:40-41 | a null fetch gives 0 flags |
| Dashboard.TotalFlagsIsSum | src/pages/Dashboard.jsx:40-41 | the left fold with its `|| 0` equals the plain sum of the bills' counts |
| Dashboard.FoldFlagsIsSum | src/pages/Dashboard.jsx:40-41 | the fold from any start value is that value plus the sum |
| Dashboard.SumFlagsConcat | src/pages/Dashboard.jsx:40-41 | the flag total of two lists together is the sum of their totals |
| Dashboard.ConfigFor | src/pages/Dashboard.jsx:225-232 | a known status gets its own badge, any other or missing status the "Uploaded" one |
| Dashboard.UploadedIsTheFallback | src/pages/Dashboard.jsx:225-232 | the badge reads "Uploaded" iff the status is not "extracted", "analyzed" or "error" |
| Dashboard.IssueLine | src/pages/Dashboard.jsx:258-263 | the line appears iff there is an analysis with a positive count, and reads the count then "issue" iff the count is 1, "issues" otherwise |
| Dashboard.IssueLineShowsCount | src/pages/Dashboard.jsx:262 | two analyses with the same issue line have the same count |
| Dashboard.SummaryPreview | src/pages/Dashboard.jsx:266 | a summary of at most 80 characters is shown whole; a longer one as its first 80 plus "..."; none shows nothing |
| Dashboard.PreviewIsBoundedPrefix | src/pages/Dashboard.jsx:266 | the preview has at most 83 characters and begins with the summary's start |
| Text.Trim | src/services/ocrService.js:103 | the trimmed text is no longer and neither starts nor ends with whitespace |
| Text.TrimIdempotent | src/services/aiAnalysis.js:123 | trimming twice is trimming once |
| Text.TrimIgnoresTrailingWhitespace | src/services/aiAnalysis.js:120-123 | trailing whitespace appended to a text does not survive trimming |
| Text.Includes | src/pages/Dashboard.jsx:174-175 | `includes` is true iff the needle occurs at some position |
| Text.RemoveTokenSkipsPlainText | src/services/aiAnalysis.js:121-122 | backtick-free text before a fence passes through the fence removal unchanged |
| Js.StringOr | src/services/aiAnalysis.js:135 | `s || d` is s when s is a non-empty string, d otherwise |
| Js.IntOr | src/services/aiAnalysis.js:139 | `n || d` is n unless n is absent or 0 |
| Js.NatToStringRoundTrip | src/services/aiAnalysis.js:218 | reading back the rendered digits of a number gives the number |
| Js.IntToStringRoundTrip | src/pages/Dashboard.jsx:262 | reading back a rendered integer, sign included, gives the integer |
| Js.IntToStringInjective | src/pages/Dashboard.jsx:262 | distinct integers render differently |

## Left out

- The Supabase calls are effects outside the model: authentication, storage upload, inserts, status updates and the per-item flag write-through in the overcharge branch (src/services/aiAnalysis.js:223-231). The model returns the values that would be sent.
- The language-model calls, prompts and `JSON.parse` are left out. The structured bill is an input.
- `validateMedicalCode` and `isOvercharged` are not part of this model. They are parameters, with no benchmark table, threshold or code list behind them.
- Tesseract, FileReader, timers, the 60 s analysis timeout, alerts, redirects and the random storage file name are left out. Only the extension part of the storage name is modelled.
- Floating-point arithmetic is left out: the savings total and `toFixed` formatting on the dashboard, and the value of the overcharge percentage.
  - Charges and savings are exact reals.
  - The percentage in the overcharge message is a whole number.
- Text.Lower: ASCII-only lower-casing, used for the dashboard search. JavaScript `toLowerCase` also folds non-ASCII letters. For the `i` flag of the account expression, ASCII folding is what non-Unicode regular expressions do.
- JavaScript strings are UTF-16. The model's strings are sequences of Unicode scalar values, so lengths (the 80-character preview, the non-ASCII removal) can differ on characters outside the Basic Multilingual Plane.
- `null` and `undefined` are one value, `None`. A JSON `null` code therefore keys duplicates as "undefined", where the code would print "null". NaN is not modelled.
- Dashboard.ConfigFor: inherited object keys such as "constructor" are not modelled. The code looks statuses up in a plain object, so those keys would return a truthy value instead of the fallback.
- The dashboard assumes every bill row carries an analyses list. A missing list makes the code throw, which is not modelled.
- FileUploader.OcrStageProgress: OCR progress is a whole percentage, as the OCR service reports it. For whole numbers 0.4p is never a half, so the nearest integer is what `Math.round` returns. Fractional progress is not modelled.
- `extractBillPatterns` on a non-string argument is not modelled.
- The rendering of numbers in messages covers whole numbers only, with no exponent notation.

## Findings

| source | as written | input that shows it | evidently intended | confidence | as-written member | corrected member |
|---|---|---|---|---|---|---|
| src/components/upload/FileUploader.jsx:250-280 | the label changes stage at 30 and 75 (`progress < 30`, `progress < 75`), but a step stays active through 30 and 75 (`progress <= 30`, `progress <= 75`) | progress 30, set once the storage upload is done, and 75, set once OCR is done: the label names the next stage while the previous step still shows as active | the active step is the stage the label names, and earlier steps show as completed | low, not executed | FileUploader.StepsLagLabel | FileUploader.AlignedStepsFollowLabel |
