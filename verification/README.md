# pc-activity-analyzer, modelled in Dafny

pc-activity-analyzer logs which window is in the foreground and how long it stays there. A chatbot then answers questions about that usage log. This project models the deterministic core of both halves as pure functions over immutable data, and proves what the code promises about them.

The usage log is a sequence of records `(app, duration, date, hour)`. Durations are whole seconds, dates are day numbers and hours run from 0 to 23. The current day is a parameter instead of a clock reading.

The modules follow the program's files:

- `QuickQuestions` (`quick_questions.py`): the pattern table and the priority-ordered question classifier. Every pattern is a list of literal pieces joined by `.*`. A reference predicate `Search` describes a regex match; an executable backtracking matcher `Matches` is proved equivalent to it.
- `QuickAnalysis` (`quick_analysis.py`): one branch per question type. Each branch is an exact grouped sum, maximum or minimum over the log, and the error payloads are kept. A question type that makes pandas raise yields an explicit `Raised` outcome.
- `UsageLog`: pandas-style grouping under that module.
  - `GroupBy` lists group keys in sorted order with exact sums.
  - `MaxEntry` and `MinEntry` return the first extremum, as `idxmax` and `idxmin` do.
  - `NLargest` keeps the largest entries.
- `RawRows`: the loaders' row policy over already-parsed CSV cells.
- `Documents`: the document builder shared by the three copies of `create_documents`. `Build` takes two parameters: the caption of the average-session field, and whether the `count > 0` guard is present.
- `UsageDataRag`, `DocumentProcessor`, `DataProcessing`: the three loaders and document builders, the answer templates, and the routing of `answer_question`.
- `LlmHandler`, `VectorStoreManager`: the prompt, role-prefix stripping, failure-to-apology, the document id scheme, and result cleaning and joining. The language model and the nearest-neighbour search are oracle parameters; each may return or raise.
- `ActiveWindowsTracker`: `format_duration`, and the session-segmentation loop run over a finite trace of polled titles. The loop is proved equal to a run-length reference.
- `Strings`, `Decimal`, `Outcomes`: Python's `strip`, `in`, `split`, `join`, `replace`, `lower` and `str(int)`. `Outcomes` holds `Option` and `Outcome`, the value-or-exception type.

Where the code and its intended behaviour disagree, the model follows the code:

- `LLMHandler.generate_response` catches every exception. A model failure therefore never reaches the `except` branches of `_generate_explanation_from_analysis` (chatbot/usage_data_rag.py:165-169) or of `answer_question` (chatbot/usage_data_rag.py:187-189).
  - On the quick path, such a failure yields "Sorry, I couldn't answer your question right now." instead of "Sorry, an error occurred while generating the response.".
  - On the general path, only a failing vector-store search produces "Sorry, an error occurred while answering the general question.".
- The quick path of `answer_question` has no `try`. The exception raised by `weekly_trend` on an empty week window therefore escapes `answer_question`.

## Model

| member | source | states |
|---|---|---|
| QuickQuestions.Classify | chatbot/quick_questions.py:58-74 | The result is `general` exactly when no intent in the priority order has a matching pattern. Otherwise the result has a matching pattern and no earlier intent has one. |
| QuickQuestions.MatchesCorrect | chatbot/quick_questions.py:72 | The executable backtracking matcher agrees with the declarative regex-search predicate on every question and pattern. |
| QuickQuestions.TwoPieceSearch | chatbot/quick_questions.py:5-54 | A pattern `x.*y` matches exactly when `x` occurs and `y` starts at or after the end of that occurrence, with no newline in between. |
| QuickQuestions.ClassifyCaseInsensitive | chatbot/quick_questions.py:68 | Lower-casing the question first does not change its class. |
| QuickQuestions.EmptyQuestionGeneral | chatbot/quick_questions.py:69-74 | The empty question is classified `general`. |
| QuickQuestions.ClassifyAs | chatbot/quick_questions.py:69-73 | An intent that matches, with no earlier intent in the order matching, is the class. |
| QuickQuestions.WeeklyUsagePrefersTrend | chatbot/quick_questions.py:34-67 | A question matching `weekly.*usage` also matches `weekly_productivity` through `week.*usage`, yet is never classified `weekly_productivity` or `general`. It is `weekly_trend` when no earlier intent matches. |
| QuickQuestions.ClassifyWhatAppExample | chatbot/quick_questions.py:18-27 | "What app did I use most today?" is classified `app_ranking`. |
| QuickQuestions.ClassifyFocusedDayExample | chatbot/quick_questions.py:5-11 | "Which day was I most focused?" is classified `most_focused_day`. |
| QuickAnalysis.PerformQuickAnalysis | chatbot/quick_analysis.py:5-138 | An empty log gives "No data found" for every type. An unknown type on a non-empty log gives "Unknown question type". The call raises exactly for `weekly_trend` on a week window with no rows. Every other error payload is one of the branch errors, and every result's `type` is the requested one. |
| QuickAnalysis.DispatchBranch | chatbot/quick_analysis.py:12-136 | On a non-empty log, each of the seven type names runs its own branch: `daily_total` gives `DailyTotalOf`, `app_ranking` gives `AppRankingOf`, and so on for every type. |
| QuickAnalysis.DailyTotalOf | chatbot/quick_analysis.py:12-26 | Today's seconds, with minutes, hours and leftover minutes as floor division gives them (`hours*60 + remaining = minutes`, `remaining < 60`). `app_count` is the number of distinct apps today. `most_used_today` is None exactly when nothing is logged today; otherwise it is an app with the largest today total, and the first one in name order. |
| QuickAnalysis.AppRankingOf | chatbot/quick_analysis.py:28-49 | With no rows today, the error "No usage data found for today". Otherwise the top app has a today total no smaller than any other app's. `top_minutes` is its floor in minutes, that total is at most the day's total, and the share is `top/all` (0 when `all = 0`). |
| QuickAnalysis.YesterdayComparisonOf | chatbot/quick_analysis.py:52-68 | Today's and yesterday's minutes are floored separately, and the change is their difference. The trend follows its sign. The change percentage is 0 exactly when yesterday has 0 minutes, and `change/yesterday` otherwise. |
| QuickAnalysis.WeeklyTrendOf | chatbot/quick_analysis.py:70-83 | The call raises exactly when no row is dated on or after `today - 7`; the window has no upper bound. Otherwise the days of the window with their floored minutes are listed in date order. Every value lies between the lowest and the peak (both listed). Every day before the peak day is strictly below the peak, and every day before the lowest day strictly above the lowest, as `idxmax` and `idxmin` pick the first day. The average is the listing's sum over its length. |
| QuickAnalysis.FirstDayExtremes | chatbot/quick_analysis.py:79-82 | In a day listing sorted by date, the first maximiser has every earlier day strictly below it, and the first minimiser every earlier day strictly above it. |
| QuickAnalysis.HourlyPatternOf | chatbot/quick_analysis.py:85-95 | The per-hour floored minutes are listed in hour order. The peak hour attains the maximum, and every earlier hour is strictly smaller. The most active hours are drawn from the listing. |
| QuickAnalysis.MostActiveHours | chatbot/quick_analysis.py:86-94 | At most three hours are listed, largest first, and none is smaller than an hour left out. Among hours of equal minutes, an hour that is kept comes before any that is left out, and kept ones are listed in hour order. |
| QuickAnalysis.WeeklyProductivityOf | chatbot/quick_analysis.py:98-113 | `total_seconds` is the sum of the durations of the rows dated on or after `today - 7`, and equals the sum of that window's per-day totals. It comes with its clock breakdown (`hours*60 + remaining = minutes`, `remaining < 60`) and the number of distinct apps in the window. |
| QuickAnalysis.MostFocusedDayOf | chatbot/quick_analysis.py:115-136 | With no row in the window, the error "No data for the last week". Otherwise the day is in the window and has a seconds total no smaller than any in-window day's; every earlier day is strictly smaller. The clock breakdown satisfies `hours*60 + remaining = minutes`. |
| UsageLog.GroupBy | chatbot/quick_analysis.py:86 | One entry per group key present in the log, in strictly increasing key order, valued by the exact group sum. |
| UsageLog.GroupBySum | chatbot/usage_data_rag.py:83 | The group sums add up to the log's total. |
| UsageLog.GroupByCount | chatbot/usage_data_rag.py:52 | There are exactly as many groups as distinct keys in the log. |
| UsageLog.MaxEntry | chatbot/quick_analysis.py:87 | An entry of the series whose value is maximal, with every entry at a smaller key strictly smaller (the first maximiser). |
| UsageLog.MinEntry | chatbot/quick_analysis.py:81 | An entry of the series whose value is minimal, with every entry at a smaller key strictly larger (the first minimiser). |
| UsageLog.NLargest | chatbot/quick_analysis.py:94 | `min(n, len)` entries of the series in descending order, none smaller than an entry left out. |
| UsageLog.NLargestTies | chatbot/quick_analysis.py:94 | On a key-sorted series, the `keep='first'` tie rule: of two entries with equal value, when only one is kept it is the one with the smaller key, and when both are kept the smaller key is listed first. |
| RawRows.KeepNumeric | chatbot/usage_data_rag.py:35-36 | Exactly the rows whose duration is a number, all numeric. A single row is kept exactly when its duration is a number. |
| RawRows.KeepNumericAppend | chatbot/usage_data_rag.py:35-36 | The filter distributes over concatenation, so with the one-row case it keeps the numeric rows in their original order, each as often as it appears. |
| RawRows.ToLog | chatbot/usage_data_rag.py:38-40 | The conversion raises exactly when some timestamp is unreadable. Otherwise there is one record per row, in order. |
| UsageDataRag.LoadUsageData | chatbot/usage_data_rag.py:29-46 | A missing file, or an unreadable timestamp on a numeric row, gives an empty log. Every record comes from a numeric row. When all timestamps parse, the log has one record per numeric row, in the same order, each converted from its row. |
| DataProcessing.LoadUsageData | chatbot/data_processing.py:6-18 | Equal to the other loader on every input: the `fillna(0)` after the numeric filter changes nothing. |
| Documents.DailyTextDuration | chatbot/usage_data_rag.py:54-56 | A daily text reads back minutes and seconds with `minutes*60 + seconds` equal to the group's duration and `seconds < 60`. |
| Documents.SessionMinutes | chatbot/usage_data_rag.py:86 | The average session in whole minutes `v` satisfies `v*60*count <= sum < (v+1)*60*count`. |
| Documents.BuildDaily | chatbot/usage_data_rag.py:52-65 | Every (date, app) group has its daily document, and every daily document belongs to a group. |
| Documents.BuildHourly | chatbot/usage_data_rag.py:68-80 | A (date, hour) group has an hourly document exactly when its total exceeds 300 seconds, so exactly 300 is excluded. Every hourly document belongs to such a group. |
| Documents.BuildApps | chatbot/usage_data_rag.py:83-97 | Every app has a summary carrying its group's seconds and row count. Every summary belongs to an app, and its count is at least one. |
| Documents.BuildCounts | chatbot/usage_data_rag.py:52-97 | There are as many daily documents as (date, app) groups, as many hourly documents as (date, hour) groups over 300 seconds, and as many summaries as apps. With the three lemmas above, each group has exactly one document. |
| Documents.BuildTotals | chatbot/usage_data_rag.py:83-97 | The summaries' `total_duration` values add up to all logged seconds, and their `session_count` values to the number of rows. |
| Documents.BuildOrdered | chatbot/usage_data_rag.py:51-97 | Daily documents come first, then hourly ones, then app summaries. |
| Documents.GuardUnreachable | chatbot/document_processor.py:42 | The `count > 0` guard never fires: guarded and unguarded builds are equal. |
| Documents.CaptionOnly | chatbot/data_processing.py:45-55 | Builds with two captions have equal length and equal metadata throughout. They have equal texts except in app summaries, where each text is its caption's summary. |
| Documents.CaptionsDiffer | chatbot/data_processing.py:50 | The "Avg Session" and "Average Session" summaries of the same app differ. |
| UsageDataRag.CreateDocuments | chatbot/usage_data_rag.py:48-100 | Every app summary's text is the "Average Session" summary of its metadata, with a positive count. The summary totals are all seconds and all rows. |
| DocumentProcessor.CreateDocuments | chatbot/document_processor.py:7-55 | Identical, text and metadata, to `UsageDataRAG._create_documents` on the same log. |
| DataProcessing.CreateDocuments | chatbot/data_processing.py:21-57 | Same length and metadata as `UsageDataRAG._create_documents`, with the same texts except that every app summary uses "Avg Session" and so differs. |
| LlmHandler.DropPrefixes | chatbot/llm_handler.py:30-32 | The prefix loop, in list order, keeps a slice of the reply. |
| LlmHandler.DropPrefixesInOrder | chatbot/llm_handler.py:30-32 | Running the loop over a list with one more prefix is running it over the list and then dropping that prefix, so the prefixes are handled in list order. |
| LlmHandler.CleanReplySteps | chatbot/llm_handler.py:29-33 | The cleaned reply is the stripped result of dropping "Answer:", then "A:", then "AI:", then "Response:". |
| LlmHandler.NoPrefixLeft | chatbot/llm_handler.py:29-33 | After the loop, none of the prefixes occurs in the text. |
| LlmHandler.NoPrefixUntouched | chatbot/llm_handler.py:30-33 | When no prefix occurs, the loop leaves the reply unchanged. |
| LlmHandler.DropPrefix | chatbot/llm_handler.py:31-32 | When the prefix occurs, the result is the stripped text after its last occurrence and no longer contains it. Otherwise the reply is unchanged. |
| Strings.AfterLast | chatbot/llm_handler.py:32 | `split(p)[-1]` is a suffix of the text without `p`. When `p` occurs, the suffix starts right after an occurrence of `p`; otherwise it is the whole text. |
| LlmHandler.CleanReply | chatbot/llm_handler.py:29-33 | The cleaned reply is stripped and contains none of "Answer:", "A:", "AI:" or "Response:". It is `response.strip()` when none of them occurs. |
| LlmHandler.GenerateResponse | chatbot/llm_handler.py:22-39 | A backend exception yields "Sorry, I couldn't answer your question right now." and is never raised. A string reply gives exactly its cleaned form: stripped and free of the prefixes. Any other reply is returned as printed. |
| LlmHandler.GenerateSimpleResponse | chatbot/llm_handler.py:41-42 | Equal to `generate_response` with an empty context. |
| VectorStoreManager.DocId | chatbot/vector_store_manager.py:27 | The id is "doc_" followed by digits that read back the position. |
| VectorStoreManager.DocIdInjective | chatbot/vector_store_manager.py:27 | Distinct positions get distinct ids. |
| VectorStoreManager.AddDocuments | chatbot/vector_store_manager.py:24-35 | One entry per document, in the supplied order, with its text and metadata. Ids read back their positions and are pairwise distinct. |
| VectorStoreManager.CleanDoc | chatbot/vector_store_manager.py:53 | The cleaned text has no newline and no surrounding whitespace. It is the stripped text with each newline replaced by a space. |
| VectorStoreManager.Format | chatbot/vector_store_manager.py:48-56 | Without a non-empty first result list, the text is "No relevant data found.". Otherwise splitting the text on newlines gives back exactly the cleaned first list, in order. |
| VectorStoreManager.QueryRelevantDocs | chatbot/vector_store_manager.py:45-56 | The call raises exactly when the search does. Otherwise the result is the formatted first result list, with `n_results` defaulting to 3. |
| UsageDataRag.Explain | chatbot/usage_data_rag.py:122-169 | An error payload gives exactly "Sorry, " followed by the error. Daily-total, yesterday-comparison and weekly-trend results go to the model with the analysis prompt, and a model failure there yields the model handler's apology, not the fallback message of chatbot/usage_data_rag.py:165-169. An hourly answer mentions every listed active hour. |
| UsageDataRag.PatternText | chatbot/usage_data_rag.py:135-141 | The hourly template contains each listed hour's "H:00 (M minutes)" item. |
| UsageDataRag.HourItems | chatbot/usage_data_rag.py:139 | The comma-joined listing is empty exactly when there are no hours. A single hour's listing is its item. |
| UsageDataRag.HourItemsAppend | chatbot/usage_data_rag.py:139 | The listing of two non-empty runs of hours is the first listing, ", ", then the second. With the one-hour case, the items appear in order, separated by ", ". |
| UsageDataRag.HourItemsContain | chatbot/usage_data_rag.py:139 | The listing contains every listed hour's "H:00 (M minutes)" item. |
| UsageDataRag.PatternReadBack | chatbot/usage_data_rag.py:135-141 | The hourly answer reads back the peak hour and its minutes as digit strings, followed by the listing of the most active hours and a final period. |
| UsageDataRag.RankingReadBack | chatbot/usage_data_rag.py:128-133 | The ranking answer names the top app and reads back its whole minutes and the printed share. |
| UsageDataRag.ProductivityReadBack | chatbot/usage_data_rag.py:143-148 | The productivity answer reads back hours and minutes with `hours*60 + minutes` equal to the week's whole minutes, and the app count. |
| UsageDataRag.FocusedReadBack | chatbot/usage_data_rag.py:150-154 | The focused-day answer names the day and reads back hours and minutes adding up to its whole minutes. |
| UsageDataRag.TemplatesIgnoreModel | chatbot/usage_data_rag.py:128-154 | Error payloads and the four templated types never depend on the language model. |
| UsageDataRag.QuickAnswer | chatbot/usage_data_rag.py:176-180 | A recognised question raises exactly for a `weekly_trend` on a non-empty log with an empty week window. An empty log gives "Sorry, No data found". Otherwise the answer is the stripped explanation of the analysis for that type. |
| UsageDataRag.GeneralAnswer | chatbot/usage_data_rag.py:181-189 | The general answer is stripped. A failing search gives "Sorry, an error occurred while answering the general question.". Otherwise the answer is the model's stripped reply with the retrieved text as context. |
| UsageDataRag.AnswerQuestion | chatbot/usage_data_rag.py:172-189 | Every answer is stripped. The call raises exactly for a question classified `weekly_trend` on a non-empty log with an empty week window. A recognised question takes the quick path and any other the general path. |
| UsageDataRag.QuickPathIgnoresStore | chatbot/usage_data_rag.py:176-180 | For a recognised question, the answer is the same whatever the vector store would return. |
| UsageDataRag.ErrorAnswer | chatbot/usage_data_rag.py:123-124 | A recognised question whose analysis is an error payload is answered with the stripped "Sorry, " plus the error. |
| ActiveWindowsTracker.FormatDuration | active_windows_tracker.py:8-16 | Parsing the text back, with each number in canonical digits (no leading zero), gives fields with minutes and seconds below 60 that add up to the seconds (`h*3600 + m*60 + s`). The text has three fields from an hour on, two from a minute on, and one otherwise. |
| ActiveWindowsTracker.NormalUnique | active_windows_tracker.py:9-10 | Two readings with minutes and seconds below 60 and the same total are equal, so the fields read back are the `divmod` breakdown. |
| ActiveWindowsTracker.DurationTextDetermined | active_windows_tracker.py:8-16 | Any text whose fields are canonical numbers forming a clock reading of the seconds, in as many fields as the total calls for, is exactly the text `format_duration` returns. |
| ActiveWindowsTracker.FieldText | active_windows_tracker.py:12-16 | A field that reads back a value is that value's decimal rendering followed by its unit letter. |
| ActiveWindowsTracker.Poll | active_windows_tracker.py:44-58 | An ignored title changes nothing. Any other title becomes the current one. Logged rows are only appended, at most one per poll. |
| ActiveWindowsTracker.Interrupt | active_windows_tracker.py:63-67 | The interrupt keeps every logged row and logs at most the open session. |
| ActiveWindowsTracker.Runs | active_windows_tracker.py:50-58 | The run-length reference: each run's title comes from the polls, neighbouring runs differ, each run lasts at least one second, and the lengths add up to the number of polls. Expanding each run back into its title repeated for its length gives the polls. |
| ActiveWindowsTracker.RunsUnique | active_windows_tracker.py:50-58 | Any runs that expand to the polls, with positive lengths and differing neighbours, are the reference runs. |
| ActiveWindowsTracker.TraceRuns | active_windows_tracker.py:42-67 | After any trace, the loop has logged every run but the last, and holds the last run's title and length. The interrupt then logs all runs. |
| ActiveWindowsTracker.Track | active_windows_tracker.py:36-67 | Everything logged over a trace ending in an interrupt is the runs of the counted polls, and expands back to those polls. No ignored title is logged. Consecutive rows differ in title, every duration is at least 1, and the durations add up to the number of counted polls. |
| Strings.Strip | chatbot/llm_handler.py:33 | `strip()` returns a middle slice with only whitespace removed on each side, and no whitespace at either end. |
| Strings.SplitJoin | chatbot/vector_store_manager.py:55 | Splitting a join on its separator gives back the pieces when none contains the separator. |
| Decimal.NatStr | chatbot/usage_data_rag.py:54-56 | `str(n)` is a digit string without a leading zero that reads back `n`. |
| Decimal.CanonicalNatStr | active_windows_tracker.py:12-16 | Every digit string without a leading zero is `str` of its value, so such a rendering is unique. |
| Strings.JoinSplit | active_windows_tracker.py:12 | Joining the pieces of a split on the same separator gives back the text. |

## Left out

- Embedding model, chromadb persistence and nearest-neighbour ranking: the search is a parameter that returns a result or raises.
- The Ollama/LangChain call: the language model is a parameter that, given the filled-in prompt, returns a reply or raises.
- CSV reading and pandas parsing (`read_csv`, `to_numeric`, `to_datetime`): the loaders receive already-parsed cells. A duration is a whole number or NaN, and a timestamp is a (day, hour) pair or unreadable.
  - Negative or fractional durations and missing timestamps (`NaT`) are outside the model.
- The loader cache in `_load_usage_data` (`self.df`): it only avoids re-reading the file.
- Index build in `_load_and_process_data` (chatbot/usage_data_rag.py:102-115). It passes three arguments to `add_documents`, which takes one (chatbot/vector_store_manager.py:24), so that path raises when the collection is empty. The model covers the document list and the stored entries, not the call.
- Floating-point values: the rounded percentages, `mean` and `change_percent` are kept as exact fractions. How they print is a parameter.
  - The average session's float is rendered as its whole-minute value followed by ".0".
  - Dates and the printed result dictionary are parameters as well.
- Logging, `print`, `time.sleep`, `win32gui` polling and the CSV append with its header check in the tracker.
- ActiveWindowsTracker.Track: the interrupt is taken only between polls. A Ctrl-C inside `log_to_csv` after the row is written (active_windows_tracker.py:33, 56-57) logs the same session again from the handler. One between lines 57 and 58 logs the new title with the old session's time.
- The `question` argument of `perform_quick_analysis`: the function never reads it.
- The "No app usage data" branch of `app_ranking` (chatbot/quick_analysis.py:35-36): it cannot fire after the non-empty check, and the model has no such branch.
- The wall clock: `today` is a parameter. The model assumes the day does not change between the two clock reads of `app_ranking`.
- `str.lower` is modelled for ASCII letters only. `str.strip` uses the fixed set of code points Python's `isspace` accepts.
- QuickAnalysis.AppRankingOf: it states only that the top app is some maximiser. The source picks it after an unstable sort, so which maximiser it picks is not specified.
- UI components, the embedding-store wrapper, `utils/helpers.py` and `analyze_usage.py`: they are outside the modelled core.
