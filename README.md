# tumor-vision-buddy: verified model of the stateful core

tumor-vision-buddy is a React web application. A doctor logs in with a CRM (medical register) number and a UF (state code). They upload tumor images, get back detection boxes and keep a local history of analyses and a registry of patients. This Dafny project models the sequential logic under the view code and proves what that logic promises:

- `HistoryContext` (history_context.dfy): the analysis history store. It is a class holding the newest-first `history` list and, standing for `localStorage`, a map from keys to stored values. It models the load and save effects, `addToHistory` and `clearHistory`.
- `PatientContext` (patient_context.dfy): the patient registry. It is a class with `patients`, `currentPatient` and the store. It models add, replace-by-id and remove-by-id, the current-patient rules, the conversions between the in-memory shape (`name`, `gender`) and the stored shape (`nome`, `genero`), and the rule that an empty list is never saved.
- `PatientStatistics` (patient_statistics.dfy): the per-patient aggregation. A loop fills a dictionary and its insertion order, and a specification function states the result. Then come the descending stable sort, the five-row view and the "show all" toggle.
- `PatientAnalysesList` (patient_analyses_list.dfy): the filter by patient, the download link and file-name fallbacks, and the line positions and file name of the PDF report.
- `UserProfile` (user_profile.dfy): the situation status, the tumor-type set (nested loops and a specification function), the avatar initials, the `formatDate` guard and the counters.
- `Login` (login.dfy): `validateForm`, the `handleSubmit` gate and the upper-casing of the UF field.
- Two helper modules model the JavaScript the code relies on. `JsValues` (js_values.dfy) covers optional properties, truthiness, `||` and what a `localStorage` key holds. `JsStrings` (js_strings.dfy) covers `trim`, `split`/`join` on one character, and `toUpperCase`.

`JSON.stringify` followed by `JSON.parse` is treated as the identity. A stored value is one of three things: a parsed value of the expected shape, the empty string (which the loaders skip because it is falsy), or text on which `JSON.parse` throws. `crypto.randomUUID()` and `Date.now()` become parameters of `AddToHistory`, with the requirement that the id is fresh.

Two points of the code shape the model:

- `AnalysisEntry` carries the optional `patientId`, `patientName` and `imageWithDetections` that the consumers read (src/types/index.ts:24-35). src/contexts/HistoryContext.tsx:13-19 omits them. `patientId` is optional because entries added without a patient do not have one at run time, even though src/types/index.ts declares it as required.
- Storage is written by React effects after each state change, not synchronously inside the operations. The model runs the save effect at the end of each operation. The mount is modelled as the load effect followed by the save effect.

## Model

| member | source | states |
|---|---|---|
| JsValues.OrElse | src/components/PatientAnalysesList.tsx:91-92 | `o \|\| fallback` on an optional string: the value when it is truthy (present and not empty), the fallback otherwise |
| JsStrings.TrimStart | src/pages/Login.tsx:25 | the result is a suffix of the input, does not start with whitespace, and only whitespace was dropped |
| JsStrings.TrimEnd | src/pages/Login.tsx:25 | the result is a prefix of the input, does not end with whitespace, and only whitespace was dropped |
| JsStrings.Trim | src/pages/Login.tsx:25 | the trimmed string neither starts nor ends with whitespace |
| JsStrings.TrimEmptyIff | src/pages/Login.tsx:25 | `!s.trim()` holds exactly when `s` is all whitespace (both directions) |
| JsStrings.TrimIsInfix | src/pages/UserProfile.tsx:69 | `trim` returns a contiguous infix with only whitespace on either side |
| JsStrings.TrimSubset | src/pages/UserProfile.tsx:69 | trimming introduces no character |
| JsStrings.OccurrencesZero | src/pages/UserProfile.tsx:69 | a character occurs zero times exactly when it is not in the string |
| JsStrings.Split | src/pages/UserProfile.tsx:45 | `split(c)` gives one more piece than there are separators, and no piece contains the separator |
| JsStrings.JoinSplit | src/pages/UserProfile.tsx:45 | joining the pieces of a split with the same separator gives back the input |
| JsStrings.SplitJoin | src/pages/UserProfile.tsx:90 | splitting a join of separator-free pieces gives back the pieces |
| JsStrings.SplitSeparatorFree | src/pages/UserProfile.tsx:69 | a string without the separator splits into itself alone |
| JsStrings.SplitConcat | src/pages/UserProfile.tsx:69 | splitting `w + c + rest` gives `w` followed by the pieces of `rest` |
| JsStrings.UpperChar | src/pages/Login.tsx:95 | upper-casing one character gives one character, or two exactly for sharp s; an ASCII lower-case letter becomes its capital (code minus 32), and every other ASCII character is left as it is |
| JsStrings.MapCharsConcat | src/pages/Login.tsx:95 | character-wise mapping distributes over concatenation |
| JsStrings.MapCharsLength | src/pages/Login.tsx:95 | a one-to-one character mapping keeps the length |
| JsStrings.ToUpperCase | src/pages/Login.tsx:95 | without sharp s, upper-casing keeps the length |
| JsStrings.ToUpperCaseNoLower | src/pages/Login.tsx:95 | the upper-cased text holds no lower-case ASCII letter |
| JsStrings.ToUpperCaseIdempotent | src/pages/Login.tsx:95 | upper-casing twice is upper-casing once |
| JsStrings.UpperCharFixed | src/pages/Login.tsx:95 | the output of a single-character upper-casing is already upper case |
| HistoryContext.Stamp | src/contexts/HistoryContext.tsx:54-58 | the new entry has the payload's fields unchanged plus the given id and timestamp |
| HistoryContext.StampPayloadOf | src/contexts/HistoryContext.tsx:53-58 | every entry is its own payload stamped with its id and timestamp, so stamping loses nothing |
| HistoryContext.Ids | src/contexts/HistoryContext.tsx:56 | the id set holds exactly the ids of the entries |
| HistoryContext.Loaded | src/contexts/HistoryContext.tsx:33-42 | a parsed stored list becomes the history; a missing key, an empty string or a parse failure give the empty history |
| HistoryContext.ReplayShape | src/contexts/HistoryContext.tsx:53-61 | after n adds there are n more entries, the newest add first and the others in reverse call order, followed by the old history unchanged |
| HistoryContext.ReplayIdsDistinct | src/contexts/HistoryContext.tsx:56-60 | fresh, pairwise distinct ids keep all ids in the history distinct over any sequence of adds |
| HistoryContext.AddedIdsLast | src/contexts/HistoryContext.tsx:56 | the ids of a list of adds are the earlier adds' ids plus the last one's |
| HistoryContext.ReplayIds | src/contexts/HistoryContext.tsx:56-60 | the ids after a series of adds are the old ids plus the added ones |
| HistoryContext.PrependIds | src/contexts/HistoryContext.tsx:60 | prepending an entry adds exactly its id to the id set |
| HistoryContext.PrependIdsDistinct | src/contexts/HistoryContext.tsx:56-60 | prepending an entry with a fresh id keeps the ids distinct |
| HistoryContext.PrependNewestFirst | src/contexts/HistoryContext.tsx:57-60 | prepending an entry no older than the head keeps the list sorted by timestamp, newest first |
| HistoryContext.HistoryProvider.constructor | src/contexts/HistoryContext.tsx:30-51 | mounting loads the stored history and then stores it back under `"analysisHistory"`, touching no other key |
| HistoryContext.HistoryProvider.Load | src/contexts/HistoryContext.tsx:33-42 | a stored list replaces the history; anything else leaves it unchanged |
| HistoryContext.HistoryProvider.Persist | src/contexts/HistoryContext.tsx:45-51 | the save effect writes the whole history under its key, changes no other key, and re-establishes stored == in-memory |
| HistoryContext.HistoryProvider.AddToHistory | src/contexts/HistoryContext.tsx:53-61 | the history becomes `[stamped payload] + old history` and the store follows it; distinct ids stay distinct; newest-first order is kept when the clock does not go back |
| HistoryContext.HistoryProvider.ClearHistory | src/contexts/HistoryContext.tsx:63-65 | the history is empty and the empty list is stored |
| HistoryContext.Reopen | src/contexts/HistoryContext.tsx:33-51 | remounting over what a consistent provider stored gives back the same history and store |
| PatientContext.ToStored | src/contexts/PatientContext.tsx:53-59 | the saved record keeps `id` and writes `name` as `nome`; each of `gender` (as `genero`), `prontuario` and `idade` is written as it is when truthy and as `""` when missing or empty |
| PatientContext.FromStored | src/contexts/PatientContext.tsx:35-41 | the loaded patient keeps `id`, reads `nome` as `name` and `genero` as `gender`, copies `prontuario` and `idade` unchanged, and has no `birthdate` |
| PatientContext.ToStoredAll | src/contexts/PatientContext.tsx:53-59 | the save conversion applied to each patient, in order, with the same length |
| PatientContext.FromStoredAll | src/contexts/PatientContext.tsx:35-41 | the load conversion applied to each record, in order, with the same length |
| PatientContext.Normalised | src/contexts/PatientContext.tsx:35-59 | a save-then-load round trip keeps `id` and `name` and drops `birthdate`; each optional field keeps a truthy value and otherwise becomes `""` |
| PatientContext.LoadAfterSave | src/contexts/PatientContext.tsx:35-59 | loading what was saved gives every patient back normalised, in the same order |
| PatientContext.SaveAfterLoadAfterSave | src/contexts/PatientContext.tsx:35-59 | saving a loaded save writes the same records again, so the round trip is stable |
| PatientContext.Loaded | src/contexts/PatientContext.tsx:30-47 | parsed records are converted; a missing key, an empty string or malformed text give no patients |
| PatientContext.Updated | src/contexts/PatientContext.tsx:70-72 | every patient with that id is replaced by the new record re-stamped with the id; all others, the order and the length are unchanged |
| PatientContext.IdList | src/contexts/PatientContext.tsx:71 | the ids of the patients, in order |
| PatientContext.UpdatedKeepsIds | src/contexts/PatientContext.tsx:70-72 | an update never changes which ids are in the list, nor where |
| PatientContext.UpdatedIdempotent | src/contexts/PatientContext.tsx:70-72 | applying the same update twice equals applying it once |
| PatientContext.Removed | src/contexts/PatientContext.tsx:83 | the filter never grows the list, and no remaining patient has the removed id |
| PatientContext.RemovedMembers | src/contexts/PatientContext.tsx:83 | a patient survives removal exactly when it was in the list and has another id |
| PatientContext.RemovedConcat | src/contexts/PatientContext.tsx:83 | removal works piecewise, so the kept patients keep their relative order |
| PatientContext.RemovedAbsent | src/contexts/PatientContext.tsx:83 | removing an id no patient has changes nothing |
| PatientContext.RemovedCount | src/contexts/PatientContext.tsx:83 | exactly the patients with that id are dropped: the new length is the old one minus their number |
| PatientContext.CountWithId | src/contexts/PatientContext.tsx:83 | the count of patients with an id is zero exactly when none has it |
| PatientContext.PatientProvider.constructor | src/contexts/PatientContext.tsx:30-62 | mounting loads the stored patients, selects nobody, and rewrites the store only when there are patients |
| PatientContext.PatientProvider.Load | src/contexts/PatientContext.tsx:30-47 | stored records replace the list after conversion; anything else leaves it unchanged |
| PatientContext.PatientProvider.Persist | src/contexts/PatientContext.tsx:50-62 | a non-empty list is written in stored form; an empty list writes nothing |
| PatientContext.PatientProvider.SetCurrentPatient | src/contexts/PatientContext.tsx:27 | the current patient becomes the given one |
| PatientContext.PatientProvider.AddPatient | src/contexts/PatientContext.tsx:64-65 | the patient is appended, earlier patients and the selection are unchanged, and the store holds the new list |
| PatientContext.PatientProvider.UpdatePatient | src/contexts/PatientContext.tsx:69-77 | the list becomes the replace-by-id update with the ids unchanged; the current patient is replaced exactly when it has that id |
| PatientContext.PatientProvider.RemovePatient | src/contexts/PatientContext.tsx:82-88 | the list becomes the filter-out-by-id; the current patient becomes none exactly when it had that id; removing the last patient leaves the store as it was |
| PatientContext.RemoveLastThenRemount | src/contexts/PatientContext.tsx:51 | adding one patient, removing it and remounting loads that patient back, because the empty list was never saved |
| PatientStatistics.Keys | src/components/PatientStatistics.tsx:34-40 | the dictionary keys are distinct, and an id is a key exactly when some qualifying entry has it |
| PatientStatistics.RowsFor | src/components/PatientStatistics.tsx:46 | `Object.values` lists one row per key, in key order |
| PatientStatistics.FirstNameIsFirst | src/components/PatientStatistics.tsx:34-40 | a row's name is the `patientName` of the first qualifying entry with that id, in history order |
| PatientStatistics.RowForStep | src/components/PatientStatistics.tsx:32-43 | one entry either creates the row with its name and then adds one analysis and its detections, or leaves the row alone |
| PatientStatistics.SumPositive | src/components/PatientStatistics.tsx:42 | an id with a qualifying entry has a positive analysis count |
| PatientStatistics.UnqualifiedIgnored | src/components/PatientStatistics.tsx:32 | `Qualifies` is the guard of line 32: an entry lacking `patientId` or `patientName` changes no row |
| PatientStatistics.NoRowsIff | src/components/PatientStatistics.tsx:53 | there are no rows, so the empty state renders, exactly when no entry qualifies |
| PatientStatistics.TotalConcat | src/components/PatientStatistics.tsx:46 | the sum of a metric over rows distributes over concatenation |
| PatientStatistics.RowsTotalStep | src/components/PatientStatistics.tsx:42-43 | one more entry adds its measure once to the total over distinct keys when its id is a key, and nothing otherwise |
| PatientStatistics.RowsForLast | src/components/PatientStatistics.tsx:46 | the rows for keys ending in k are the rows for the others followed by k's row |
| PatientStatistics.GroupTotals | src/components/PatientStatistics.tsx:29-46 | every qualifying entry is counted in exactly one row: the sum of `analyses` is the number of qualifying entries and the sum of `detections` is their detections |
| PatientStatistics.SumZero | src/components/PatientStatistics.tsx:34-43 | an id with no analyses has no detections counted |
| PatientStatistics.Tally | src/components/PatientStatistics.tsx:29-46 | the `forEach` over the dictionary produces exactly `GroupRows` (`Object.values`: one row per key of `Keys`, in first-insertion order) |
| PatientStatistics.TalliedRows | src/components/PatientStatistics.tsx:46 | the values of a complete dictionary, in insertion order, are the grouped rows |
| PatientStatistics.TallySkip | src/components/PatientStatistics.tsx:31-32 | a pass over an entry lacking `patientId` or `patientName` keeps the dictionary equal to the rows of the entries seen so far |
| PatientStatistics.TallyCount | src/components/PatientStatistics.tsx:31-43 | a pass over a qualifying entry (create the row if missing, then count) keeps the dictionary equal to the rows of the entries seen so far |
| PatientStatistics.Insert | src/components/PatientStatistics.tsx:47 | inserting adds exactly one row |
| PatientStatistics.InsertPermutes | src/components/PatientStatistics.tsx:47 | inserting adds exactly that row to the multiset |
| PatientStatistics.InsertOrdered | src/components/PatientStatistics.tsx:47 | `Before` is the comparator of line 47 being negative; inserting into an ordered list keeps it ordered by analyses, then detections, descending |
| PatientStatistics.InsertTotal | src/components/PatientStatistics.tsx:47 | inserting adds the row's values to the totals |
| PatientStatistics.SortRows | src/components/PatientStatistics.tsx:47 | the sort is ordered by the comparator and is a permutation, so the totals are kept |
| PatientStatistics.SortStable | src/components/PatientStatistics.tsx:47 | rows that tie on both keys keep their relative order |
| PatientStatistics.InsertTies | src/components/PatientStatistics.tsx:47 | inserting puts the row in front of its ties |
| PatientStatistics.PatientData | src/components/PatientStatistics.tsx:28-48 | `patientData` is ordered, a permutation of the grouped rows, has one row per qualifying patient, and its totals are the qualifying entries' counts |
| PatientStatistics.Displayed | src/components/PatientStatistics.tsx:51 | all rows with "show all", otherwise the first min(5, n) rows |
| PatientStatistics.ToggleShownIff | src/components/PatientStatistics.tsx:51-117 | `ToggleShown` (`patientData.length > 5`, line 117): the toggle is rendered exactly when the five-row view hides some rows |
| PatientStatistics.StatisticsView.constructor | src/components/PatientStatistics.tsx:25 | "show all" starts off |
| PatientStatistics.StatisticsView.ToggleShowAll | src/components/PatientStatistics.tsx:121 | a click flips "show all" |
| PatientStatistics.StatisticsView.DisplayedPatients | src/components/PatientStatistics.tsx:51 | with "show all" on, every row is shown; with it off, the first five rows (all of them when there are fewer) |
| PatientAnalysesList.PatientAnalyses | src/components/PatientAnalysesList.tsx:21 | with `ForPatient` as `entry.patientId === patientId`, the filter keeps only entries of that patient, and keeps every one of them |
| PatientAnalysesList.PatientAnalysesConcat | src/components/PatientAnalysesList.tsx:21 | the filter works piecewise, so kept entries stay in their relative order |
| PatientAnalysesList.PatientAnalysesIdempotent | src/components/PatientAnalysesList.tsx:21 | filtering twice equals filtering once |
| PatientAnalysesList.EmptyStateIff | src/components/PatientAnalysesList.tsx:21-103 | the empty-state card renders exactly when no entry belongs to the patient |
| PatientAnalysesList.DownloadHref | src/components/PatientAnalysesList.tsx:91 | the link is the image with detections when present, else the uploaded image |
| PatientAnalysesList.DownloadName | src/components/PatientAnalysesList.tsx:92 | the download name is the file name when not empty, `"imagem_analise.png"` when it is empty, and so never empty |
| PatientAnalysesList.PdfFileName | src/components/PatientAnalysesList.tsx:75-79 | the report name is `analise_` + id + `.pdf` |
| PatientAnalysesList.PdfFileNameInjective | src/components/PatientAnalysesList.tsx:75-79 | different entry ids give different report names |
| PatientAnalysesList.HeaderLines | src/components/PatientAnalysesList.tsx:37-47 | five header lines, or six with a patient name, going down the page and ending at y 65 or 75 |
| PatientAnalysesList.DetectionLines | src/components/PatientAnalysesList.tsx:49-63 | one line per detection, going down the page |
| PatientAnalysesList.DescendingConcat | src/components/PatientAnalysesList.tsx:37-63 | two runs going down the page, the second starting below the first, form one |
| PatientAnalysesList.ReportDescending | src/components/PatientAnalysesList.tsx:37-63 | every line of the report is written below the previous one |
| PatientAnalysesList.DetectionLinePositions | src/components/PatientAnalysesList.tsx:46-63 | detection line i reads "i+1. label" and is at 85 + 10i with a patient name, 75 + 10i without |
| PatientAnalysesList.ImageBelowLines | src/components/PatientAnalysesList.tsx:66-74 | the image starts 15 below the last line, so below every line written (90 + 10n or 80 + 10n) |
| PatientAnalysesList.ExportToPdf | src/components/PatientAnalysesList.tsx:31-86 | the report has five header lines, or six with a patient name, plus one per detection; it places an image exactly when `imageWithDetections` is truthy, at 90 + 10n with a patient name and 80 + 10n without; it is saved as `analise_` + id + `.pdf` |
| PatientAnalysesList.SameNameWithOrWithoutImage | src/components/PatientAnalysesList.tsx:75-79 | the branch with an image (line 75) and the one without (line 79) save the report under the same name |
| UserProfile.SituationStatus | src/pages/UserProfile.tsx:39 | `"Regular"` is shown as `"Ativo"`; any other value passes through |
| UserProfile.IsActive | src/pages/UserProfile.tsx:40 | active exactly when the raw status is `"Regular"` or `"Ativo"` |
| UserProfile.TumorType | src/pages/UserProfile.tsx:69-70 | no type without a `':'`; an extracted type is not empty, contains no `':'` and is trimmed |
| UserProfile.TumorTypeIsSecondSegment | src/pages/UserProfile.tsx:69-70 | the type is the segment between the first `':'` and the next one (or the end), trimmed, and absent when that is blank |
| UserProfile.SecondPiece | src/pages/UserProfile.tsx:69 | the second piece of a split runs from the first separator to the next one |
| UserProfile.FirstPiece | src/pages/UserProfile.tsx:69 | the first piece of a split runs up to the first separator |
| UserProfile.BoxTypesMembers | src/pages/UserProfile.tsx:68-71 | a type is collected from a detection list exactly when some detection's label names it |
| UserProfile.HistoryTypesMembers | src/pages/UserProfile.tsx:66-72 | a type is collected from the history exactly when some detection of some entry names it |
| UserProfile.CollectTumorTypes | src/pages/UserProfile.tsx:66-72 | the nested loops build exactly the set of types named anywhere in the history, each counted once |
| UserProfile.Heads | src/pages/UserProfile.tsx:90 | at most one character per piece |
| UserProfile.Initials | src/pages/UserProfile.tsx:90 | at most two characters, none of them a space |
| UserProfile.HeadsAvoid | src/pages/UserProfile.tsx:90 | a character no word contains is not among the initials |
| UserProfile.InitialsOfWords | src/pages/UserProfile.tsx:90 | for words joined by single spaces, the initials are the first letters of the first two words |
| UserProfile.HeadsOfWords | src/pages/UserProfile.tsx:90 | the first characters of non-empty words, one per word, in order |
| UserProfile.NonEmptyPieces | src/pages/UserProfile.tsx:90 | the non-empty pieces of a split, none of them empty and no more than there were pieces |
| UserProfile.HeadsSkipsEmpty | src/pages/UserProfile.tsx:90 | an empty piece contributes nothing (`undefined` joins as nothing): the heads are the first characters of the non-empty pieces, one each, in order |
| UserProfile.InitialsSkipEmpty | src/pages/UserProfile.tsx:90 | the avatar is the first characters of the first two words of the name, whatever spaces lie before, between or after them |
| UserProfile.InitialsDoubledSpace | src/pages/UserProfile.tsx:90 | two words separated by two spaces give their two first letters |
| UserProfile.InitialsLeadingSpace | src/pages/UserProfile.tsx:90 | a word after a leading space gives its first letter alone |
| UserProfile.InitialsExtraSpaces | src/pages/UserProfile.tsx:90 | `"Ana  Maria"` gives `"AM"` and `" ana"` gives `"a"` |
| UserProfile.FormatDate | src/pages/UserProfile.tsx:42-46 | the input is returned unchanged unless it holds exactly two `'/'`; otherwise the three pieces join back to the input |
| UserProfile.PatientCount | src/pages/UserProfile.tsx:62-63 | a missing key or an empty string count 0, a stored list counts its records, and malformed text throws (none) |
| UserProfile.PatientCountMatchesRegistry | src/pages/UserProfile.tsx:62-63 | while the registry has patients, the profile counts exactly them |
| UserProfile.AnalysisCountAfterAdds | src/pages/UserProfile.tsx:61 | `AnalysisCount` (`history.length`) grows by exactly one per call of `addToHistory` |
| UserProfile.AnalysisCountMatchesStore | src/pages/UserProfile.tsx:61 | `AnalysisCount` (`history.length`) is the number of stored history entries |
| Login.CrmError | src/pages/Login.tsx:25-28 | the CRM message is "CRM é obrigatório" exactly when the CRM is blank, otherwise empty |
| Login.UfError | src/pages/Login.tsx:30-36 | "UF é obrigatório" when blank; otherwise "UF deve ter 2 caracteres" when the untrimmed length is not 2; otherwise empty |
| Login.Validate | src/pages/Login.tsx:21-40 | each field's message is computed independently; valid exactly when both are empty, that is when neither field is blank and the UF has length 2 |
| Login.PaddedUfAccepted | src/pages/Login.tsx:30-35 | the length check ignores trimming: a space followed by a letter passes |
| Login.LoginForm.constructor | src/pages/Login.tsx:13-15 | both fields and both messages start empty |
| Login.LoginForm.OnCrmChange | src/pages/Login.tsx:76 | the CRM field takes the typed value |
| Login.LoginForm.OnUfChange | src/pages/Login.tsx:95 | the UF field is the upper-cased value, holds no lower-case ASCII letter, and is unchanged by upper-casing again |
| Login.LoginForm.ValidateForm | src/pages/Login.tsx:21-40 | the branch-by-branch computation stores the messages `Validate` gives and returns its verdict |
| Login.LoginForm.HandleSubmit | src/pages/Login.tsx:42-50 | `login` is called, with the current CRM and UF, exactly when the form is valid |

## Left out

- Floating point: the detection box coordinates are carried but never computed with. `toFixed(0)` and the image height from the aspect ratio in `exportToPDF` are not modelled, so the text of a detection line keeps only its number and label.
- jsPDF drawing, the `Image` load callback, `toast` notifications, `console.error`, and the DOM link element created and clicked by `downloadImage` are not modelled. The model keeps only the positions, texts, link and names these calls receive.
- Date handling: date-fns `format` with the pt-BR locale, `new Date`, and `parseInt` in `formatDate` are not modelled. `FormatDate` stops at the three pieces it would parse, and the date and time lines of the PDF carry the raw timestamp.
- `crypto.randomUUID()` and `Date.now()` are parameters of `AddToHistory`. Freshness of the id is a precondition, and a non-decreasing clock is the hypothesis of the order guarantee.
- `JSON.parse` of a value of another shape (an object, a number, `null`) is not modelled. A stored value is a list of the expected shape, the empty string, or text that does not parse.
- Object keys: the model keeps dictionary values in first-insertion order. JavaScript lists integer-like keys such as `"12"` first in ascending numeric order, and keys such as `"__proto__"` or `"toString"` collide with `Object.prototype`. Neither is modelled. Integer-like keys change the order of the rows before sorting. The sort keeps tied rows in that order, so they can also change the final order of tied rows in `patientData` and which of them fall inside the first five shown.
- `Array.prototype.sort` is modelled by a stable insertion sort. The language requires `sort` to be stable, so the result is the same; the engine's own algorithm and its cost are not modelled.
- React effect scheduling: on mount the save effect first writes the initial empty list and then the loaded one. The model runs the load effect and then the save effect. Effects running after each state update are modelled as a save at the end of each operation.
- Reading `currentPatient` inside `updatePatient` and `removePatient` uses the value at the time of the call, not a pending state update. The model applies both updates in sequence, which is the same when no other update is pending.
- `localStorage.setItem` failures, such as a full quota, are caught and logged by the history store. They are not modelled: every write succeeds.
- JsStrings.ToUpperCase: covers ASCII and Latin-1 (including sharp s to "SS", ÿ to Ÿ and the micro sign to capital mu), not the rest of Unicode's case mapping.
- UserProfile.Initials: `name[0]` and `substring(0, 2)` work on UTF-16 code units. For a word that starts with a character outside the Basic Multilingual Plane the browser takes a lone surrogate, while the model takes the whole character.
- Login.UfError: lengths are counted in Dafny characters, not UTF-16 code units, so a UF made of one astral character counts as length 1 here and 2 in the browser.
- `maxLength={2}` on the UF input is browser behaviour and is not modelled; the validator is modelled on any string.
- The `login` network call, the `AuthContext` token bookkeeping, navigation and redirects (`Navigate`), and the `isLoading` state are not modelled. `HandleSubmit` returns the credentials it would send.
- src/utils/indexedDB.ts is not part of this model: the history store does not call it.
- Rendering, charts, dialogs, routing, the sidebar and the dark-mode preference are not part of this model.
- `PatientCount` returns `None` for the `JSON.parse` exception thrown while the page renders. The error boundary that would then apply is not modelled.
