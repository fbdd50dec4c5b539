# Locust report analyzer and API key checker — a verified model

This project models the two small pieces of local logic in a load-testing harness that
compares the OpenAI chat API with the Hugging Face inference API:

- `analyze_reports.py` reads the CSV statistics a load-testing run leaves under
  `reports/`. It summarizes each system from its statistics file and extracts a traffic
  time series from its history file. It then prints a comparison report made of a table,
  three insights and a list of recommendations, and plots the two series.
- `locustfiles/verify_api_keys.py` checks the two API keys before a run. It rejects unset
  and placeholder keys, classifies the HTTP client's reply to a test request, reads a key
  out of a configuration file and chooses between command-line and environment keys. It
  exits with status 1 when the OpenAI key is not valid.

Modules:

- `Wrappers` (`wrappers.dfy`): `Option`.
- `Seqs` (`seqs.dfy`): the order-preserving filter that models a pandas boolean-mask row
  selection, and the positions of the rows it keeps.
- `Text` (`text.dfy`): the Python string operations the key checker uses. These are
  `str.isspace`, with its full code-point set; `strip` with and without a character set;
  `split` on one character with `"x".join` as its inverse; substring `in`; and `startswith`.
- `AnalyzeReports` (`analyze_reports.dfy`): `analyze_stats`, `analyze_history`,
  `generate_comparison_report` as a sequence of report-line tokens, the guard of
  `plot_comparison`, and `main`.
- `VerifyApiKeys` (`verify_api_keys.dfy`): `verify_openai_key`, `verify_huggingface_key`,
  `extract_key_from_file` as a loop with early return, the key precedence and the exit
  status.

External effects are inputs of the model:

- A CSV file is `NotFound`, `Malformed` or an already parsed `Table` of rows. `Malformed`
  means reading raises, or a column that the analyzing function itself reads is missing.
  For a history file those columns are only `Timestamp` and `Total Request Count`.
- The HTTP client's run is its exit code and standard output, or `Raised`.
- A text file is its lines plus whether reading raises after them.
- The environment is the two variables' values.
- The existence of `reports/` is a boolean.

Printing is modelled as the sequence of `Line` tokens the report prints, and the plot as
the samples each panel draws.

`analyze_stats` takes `.iloc[0]` of the frame left after the totals row is removed. When no
data row is left, that raises `IndexError` inside the function's `try` block, so the code
returns `None`. The model follows the code: `AnalyzeStats` is `None` for such a file. It is
not an unguarded crash.

## Model

| member | source | states |
|---|---|---|
| Seqs.Filter | analyze_reports.py:52 | the rows kept are exactly the input rows that satisfy the mask, none added |
| Seqs.FilterAtPositions | analyze_reports.py:52 | the kept rows are the input rows at the returned positions, one for one |
| Seqs.FilterPositionsComplete | analyze_reports.py:52 | every row that satisfies the mask has its position among the kept positions |
| Seqs.FilterHead | analyze_reports.py:20-23 | the first kept row is the first row of the input that satisfies the mask |
| Seqs.FilterEmpty | analyze_reports.py:20-23 | nothing is kept exactly when no row satisfies the mask |
| Text.Strip | locustfiles/verify_api_keys.py:80-82 | the result is `s[i..j]` with every character before i and from j on stripped, and it neither starts nor ends with a stripped character, so exactly the stripped characters at the two ends are removed |
| Text.StripKeepsKept | locustfiles/verify_api_keys.py:62 | every character outside the stripped set survives, so the stripped text is empty exactly when the input is all stripped characters |
| Text.StripIdempotent | locustfiles/verify_api_keys.py:80-82 | stripping twice is stripping once |
| Text.Split | locustfiles/verify_api_keys.py:80 | at least one part, no part contains the separator, two or more parts exactly when the separator occurs, and joining the parts gives the input back |
| Text.SplitJoin | locustfiles/verify_api_keys.py:80 | splitting a join of separator-free parts gives the parts back |
| Text.SplitAfterSegment | locustfiles/verify_api_keys.py:80 | a separator-free segment followed by the separator is the first part, and the rest splits on its own |
| AnalyzeReports.FailureRate | analyze_reports.py:26 | with requests the rate times the requests is a hundred times the failures; with none it is 0, so nothing is divided by zero |
| AnalyzeReports.FailureRateIsPercentage | analyze_reports.py:26 | with no more failures than requests the rate lies in [0, 100] |
| AnalyzeReports.AnalyzeStats | analyze_reports.py:11-39 | a missing or malformed file gives None; a table gives a summary exactly when it has a row not named Aggregated; the summary is never the totals row |
| AnalyzeReports.SummaryOfFirstDataRow | analyze_reports.py:20-35 | the summary describes the first row not named Aggregated, with every field from that one row and the rate from its counts |
| AnalyzeReports.StatsWithTotalsRow | analyze_reports.py:20-35 | a data row of 100 requests and 5 failures before the totals row gives a 5 percent failure rate and ignores the totals row |
| AnalyzeReports.ConvertTimestamps | analyze_reports.py:50 | one point per row in the same order, the timestamp read as epoch seconds and the other columns unchanged |
| AnalyzeReports.AnalyzeHistory | analyze_reports.py:41-57 | a series exactly for a table; every kept point has traffic and every row with traffic is kept |
| AnalyzeReports.HistoryIsOrderedSubsequence | analyze_reports.py:50-54 | the series is the converted rows with traffic at strictly increasing positions, all of them, and nothing else |
| AnalyzeReports.HistoryDropsIdleRows | analyze_reports.py:50-54 | rows with 0, 5 and 7 requests at seconds 0, 1 and 2 give the two points at seconds 1 and 2 |
| AnalyzeReports.When | analyze_reports.py:106-116 | a recommendation is printed exactly when its condition holds, and at most once |
| AnalyzeReports.GenerateComparisonReport | analyze_reports.py:59-119 | a missing summary gives only the error line; otherwise the table of both summaries comes first and the error never appears |
| AnalyzeReports.NoErrorInRecommendations | analyze_reports.py:104-119 | no recommendation is the missing-summary error |
| AnalyzeReports.FailureItemsRanked | analyze_reports.py:106-110 | the first system's failure item precedes the second's |
| AnalyzeReports.TimeoutItemsRanked | analyze_reports.py:112-116 | the first system's timeout item precedes the second's |
| AnalyzeReports.RecommendationsRanked | analyze_reports.py:104-119 | heading, failure items, timeout items, then retry and caching, in that order |
| AnalyzeReports.ReportInFixedOrder | analyze_reports.py:65-119 | the report follows the fixed order table, insights, recommendations, and holds no kind of line twice |
| AnalyzeReports.RatioOrder | analyze_reports.py:96-99 | comparing the 95th-percentile-to-median ratios is comparing their cross products |
| AnalyzeReports.ReportParts | analyze_reports.py:65-119 | a report line is the table, an insight or a recommendation, and recommendations never rank among the insights |
| AnalyzeReports.LowerAverageResponseTimeWinner | analyze_reports.py:84-87 | exactly one system is named; the first only when its mean response time is strictly lower |
| AnalyzeReports.HigherThroughputWinner | analyze_reports.py:90-93 | exactly one system is named; the first only when its throughput is strictly higher |
| AnalyzeReports.MoreConsistentWinner | analyze_reports.py:96-102 | exactly one system is named; the first only when its ratio is strictly smaller, ties going to the second |
| AnalyzeReports.SecondSystemFasterAndBusier | analyze_reports.py:84-93 | 200 ms and 10 requests/s against 150 ms and 12 requests/s: the second system wins both insights |
| AnalyzeReports.RecommendationItems | analyze_reports.py:104-119 | the recommendations are the heading, the failure and timeout items whose conditions hold, and the two fixed items |
| AnalyzeReports.FailureRecommendations | analyze_reports.py:106-110 | the report has a failure item for a system exactly when its failure rate is positive |
| AnalyzeReports.TimeoutRecommendations | analyze_reports.py:112-116 | the report has a timeout item for a system exactly when its maximum response time exceeds 1000 ms |
| AnalyzeReports.FixedRecommendationsLast | analyze_reports.py:118-119 | retry and caching are always the last two lines |
| AnalyzeReports.FailureItemsCarryTheirRate | analyze_reports.py:106-110 | every failure item carries the positive rate of the system it names |
| AnalyzeReports.ResponseTimeSeries | analyze_reports.py:128-129 | one sample per history point, at its time, with its mean response time |
| AnalyzeReports.ThroughputSeries | analyze_reports.py:137-138 | one sample per history point, at its time, with its requests per second |
| AnalyzeReports.PlotComparison | analyze_reports.py:121-149 | a plot is saved to reports/performance_comparison.png exactly when both histories are present, empty ones included, each panel drawing both series |
| AnalyzeReports.ExitStatus | analyze_reports.py:154-156 | status 1 exactly for a missing reports directory, 0 otherwise |
| AnalyzeReports.RunAnalysis | analyze_reports.py:151-173 | a missing reports directory stops the run; the report is printed only when both summaries exist, so it never shows the error; the plot is always attempted on the two analyzed histories |
| VerifyApiKeys.ErrorDetails | locustfiles/verify_api_keys.py:38 | the details are the reply's first 200 characters, or all of a shorter reply |
| VerifyApiKeys.VerifyOpenAIKey | locustfiles/verify_api_keys.py:15-42 | not set exactly for an absent, empty or placeholder key; valid exactly when the client exited with 0 and its output contains "choices"; a failed request exactly when the client raised; a rejection carries the reply's details |
| VerifyApiKeys.VerifyHuggingFaceKey | locustfiles/verify_api_keys.py:44-71 | not set as for OpenAI; valid exactly when the client exited with 0, the output has a non-space character and does not start with {"error; otherwise a failed request or a rejection with details |
| VerifyApiKeys.UnsetKeyIgnoresReply | locustfiles/verify_api_keys.py:18-20 | an unset key gives the same verdict whatever the reply, for both services (lines 47-49 for the second), so no request matters |
| VerifyApiKeys.ChooseKey | locustfiles/verify_api_keys.py:103-113 | a non-empty command-line key wins, otherwise the environment's value is taken as it is |
| VerifyApiKeys.RunChecker | locustfiles/verify_api_keys.py:99-130 | both keys are chosen and verified; the exit status is 1 exactly when the OpenAI verdict is not valid |
| VerifyApiKeys.ExitStatusIgnoresHuggingFace | locustfiles/verify_api_keys.py:125-130 | the Hugging Face key, its variable, its reply and --use-env never change the exit status |
| VerifyApiKeys.ExitStatusZeroIff | locustfiles/verify_api_keys.py:117-130 | the exit status is 0 exactly when the chosen OpenAI key is set and the reply to it is accepted |
| VerifyApiKeys.CommandLineKeyOverridesEnvironment | locustfiles/verify_api_keys.py:103-107 | with a non-empty --openai-key the OPENAI_API_KEY variable does not affect the run |
| VerifyApiKeys.KeyLineHasEquals | locustfiles/verify_api_keys.py:78-80 | a line that passes the test contains "=", so its second field exists |
| VerifyApiKeys.SecondField | locustfiles/verify_api_keys.py:80 | the text between the first and second "=" has no "=" and is part of the line |
| VerifyApiKeys.CutComment | locustfiles/verify_api_keys.py:84 | the text before the first "#", stripped, has no "#" and is part of the value |
| VerifyApiKeys.Unquote | locustfiles/verify_api_keys.py:80-82 | the stripped value is part of the input and neither starts nor ends with a quote |
| VerifyApiKeys.KeyValue | locustfiles/verify_api_keys.py:80-85 | the extracted value is part of the text between the first and second "=" of the line and has neither "=" nor "#" |
| VerifyApiKeys.KeyValueOfPlainLine | locustfiles/verify_api_keys.py:80-85 | writing `<key> = <v>` with a line end and extracting it gives back v, for any v with no "=", "#", and no blank or quote at its ends |
| VerifyApiKeys.PlainLineField | locustfiles/verify_api_keys.py:80 | the second field of `<key> = <v>` plus the line end is everything after its "=" |
| VerifyApiKeys.UnquotePlain | locustfiles/verify_api_keys.py:80-82 | stripping ` <v>` plus a line end, then its quotes, gives v |
| VerifyApiKeys.ExtractValue | locustfiles/verify_api_keys.py:80-85 | the reassignment of the value in the code's order (split and strip, strip quotes, then cut at "#" and strip when one is left) computes the extracted value of the line, with no "=" and no "#" |
| VerifyApiKeys.ExtractKeyFromFile | locustfiles/verify_api_keys.py:73-88 | with the key name defaulting to api_key: a key exactly when some line is a key line, the extracted value of the first such line, free of "=" and "#"; a warning exactly when no key was found and reading raised |
| VerifyApiKeys.QuotedLineField | locustfiles/verify_api_keys.py:80 | the second field of `<key> = "<v>" # <comment>` is everything after its "=" |
| VerifyApiKeys.UnquoteOpening | locustfiles/verify_api_keys.py:80-82 | stripping removes only the leading blank and opening quote when the text ends in neither |
| VerifyApiKeys.CutCommentAt | locustfiles/verify_api_keys.py:83-84 | cutting `<x> #<rest>` leaves x |
| VerifyApiKeys.CutCommentKeepsQuote | locustfiles/verify_api_keys.py:83-84 | cutting `<v>" # <comment>` leaves `<v>"` |
| VerifyApiKeys.KeyValueKeepsClosingQuote | locustfiles/verify_api_keys.py:80-85 | as written, a quoted value followed by a comment comes back with its closing quote |
| VerifyApiKeys.KeyValueExample | locustfiles/verify_api_keys.py:80-85 | as written, the line `api_key = "sk-1" # test` yields `sk-1"` |
| VerifyApiKeys.IntendedKeyValue | locustfiles/verify_api_keys.py:80-85 | cutting the comment before stripping gives a part of the text between the first and second "=" with no "=", no "#" and no quote at either end |
| VerifyApiKeys.BeforeCommentOfQuoted | locustfiles/verify_api_keys.py:84 | the text before the comment of ` "<v>" # <comment>` is ` "<v>" ` |
| VerifyApiKeys.UnquoteQuoted | locustfiles/verify_api_keys.py:82 | a quoted value between blanks strips to the value |
| VerifyApiKeys.IntendedKeyValueOfQuotedLine | locustfiles/verify_api_keys.py:80-85 | cutting the comment first, `<key> = "<v>" # <comment>` gives back exactly v |
| VerifyApiKeys.IntendedAgreesWithoutComment | locustfiles/verify_api_keys.py:80-85 | on a line whose value has no "#" the corrected and the as-written extraction give the same key |
| VerifyApiKeys.IntendedKeyValueExample | locustfiles/verify_api_keys.py:80-85 | cutting the comment first, `api_key = "sk-1" # test` yields `sk-1` |

## Left out

- CSV parsing with `pandas.read_csv`, column access by name and `pd.to_datetime`. They are
  library code. A file arrives parsed, or as `Malformed` when any of them would raise. A
  timestamp becomes an `Instant` of epoch seconds, and the datetime range limits are not
  modelled.
- AnalyzeHistory: the `Timestamp` column is overwritten on a frame that is local to the
  call and never aliased. It is modelled as a value: the converted rows, then the filtered
  ones. Only the four columns the rest of the code reads are kept in a row.
- AnalyzeHistory, PlotComparison, RunAnalysis: the uncaught error path is not modelled.
  A history file that has `Timestamp` and `Total Request Count` but lacks
  `Total Average Response Time` or `Requests/s` is returned by `analyze_history`. Then
  `plot_comparison` raises `KeyError` at lines 128 and 137, outside any `try`. A `savefig`
  that fails at line 146 raises in the same way. In both cases `main` ends with a traceback
  and exit status 1. The model's history rows always carry the plotted columns, and saving
  cannot fail. So the model has no such outcome: a file like this can be expressed only as
  `Malformed`, which the model maps to `MissingHistoryError` and exit status 0.
- GenerateComparisonReport, RunAnalysis: both require positive medians when both summaries
  are present. For `RunAnalysis` those are the first data rows of the two statistics files.
  The source divides by the medians, and with a zero median numpy yields an infinity or NaN
  rather than an error. That IEEE behaviour is not modelled.
- Floating point in general: times, rates and ratios are reals, so rounding is not
  modelled.
- Print formatting: column widths, `.2f` rounding and the wording of each line. A printed
  line is a `Line` token carrying the data it shows.
- The error and warning messages that `analyze_stats` and `analyze_history` print. They have
  no effect on the result.
- The drawing done by matplotlib: titles, labels, colours, layout and the PNG encoding. A
  saved plot is its path and the samples of each panel.
- `subprocess.run` of the HTTP client, its argument list, the request bodies and the
  network. The client's exit code and output, or its exception, are inputs.
- argparse, `load_dotenv`, `os.getenv`, `os.path.exists` and `sys.exit`. Their results are
  inputs, or outputs such as the exit status. `--use-env` is parsed and has no effect. The
  model takes it as an argument and proves that it changes nothing.
- Opening and decoding the configuration file in `extract_key_from_file`. A file is the
  lines it yields plus whether reading then raises; a file that cannot be opened yields
  no lines and raises.
- The console output of the key checker: its headings and emoji lines. The verdicts and the
  exit status are modelled.
- `locustfiles/openai_locustfile.py` and `locustfiles/huggingface_locustfile.py`. They
  issue HTTP requests through the load-testing library's callbacks and hold no local
  decision logic.

## Findings

| source | as written | input that shows it | evidently intended | confidence | as-written member | corrected member |
|---|---|---|---|---|---|---|
| locustfiles/verify_api_keys.py:80-85 | quotes are stripped from the value while a trailing comment is still attached, and the comment is cut afterwards, so the closing quote stays in the key | the line `api_key = "sk-1" # test` yields `sk-1"` | the comment is removed first, so the line yields `sk-1` | high, not executed | VerifyApiKeys.KeyValueKeepsClosingQuote | VerifyApiKeys.IntendedKeyValueOfQuotedLine |

`KeyValue` is the extraction as written, and `KeyValueExample` shows the concrete line. The
scan `ExtractKeyFromFile`, through `ExtractValue`, returns this as-written value.
`IntendedKeyValue` is the corrected extraction, and `IntendedKeyValueExample` shows it on
the same line. `IntendedAgreesWithoutComment` shows that the two agree on every line without
a comment. `extract_key_from_file` is not called from the checker's `__main__` block, so the
corrected extraction is not used by any other member.
