# Yokohama facility reservation: a Dafny model

This project models the deterministic core of `reserve_system`, a tool that
searches the City of Yokohama's facility-reservation site. It has two
variants of that job:

- a direct-HTTP client that replays the site's own requests;
- a Selenium scraper that drives the site's search form and publishes what
  it finds to a scheduling site.

Each piece of logic between the network, the browser, pandas and the clock
is modelled in Dafny. One module per source file:

- `ApiClient` covers `api_version/api_client.py`.
  - `FacilityClient` is a class. It holds the anti-forgery token, the token's
    expiry time and the time of the last request, plus the client's clock and
    the log of calls it sent.
  - It models the request spacing and the retry loop with exponential
    backoff.
  - It models the shaping of request bodies. A token dictionary becomes a
    multipart body; the delimiters follow section 5.1.1 of RFC 2046 and the
    `Content-Disposition` part header follows section 4.2 of RFC 7578. A
    token string is flagged as `application/x-www-form-urlencoded`.
  - It models session set-up, the search form (built by string appending)
    and the follow-up detail page.
- `Parsers` covers `api_version/parsers.py`. It models `parse_html_content`
  over an abstract document: what the program's CSS selections return.
- `OutputHandlers` covers `api_version/output_handlers.py`: the sorted,
  unquoted CSV text.
- `SearchResultsPage` covers `src/pages/search_results_page.py`. It models
  result rows read over successive "load more" snapshots, with cross-page
  de-duplication and the hidden-input codes.
- `ResultComparator` covers `src/core/utils/result_comparator.py`: new,
  removed and changed facilities between two result tables.
- `FileHandler` covers `src/core/utils/file_handler.py`.
  - It models the run directory, chosen once and then reused.
  - It models task and merged result files.
  - It models the cleanup that keeps the two newest run directories.
- `CsvUtils` covers `browser_version/src/utils/csv_utils.py`: the `.csv`
  file-name rule and the concatenation of result tables.
- `DateTimeInput` covers `browser_version/src/pages/date_time_input.py`. It
  models the date, time and weekday steps of the search form, with their
  read-back checks.
- `ResultsHandler` covers `browser_version/src/core/chouseisan/results_handler.py`.
  - It models the choice of the latest results file.
  - It models deleting the existing slots.
  - It models the text typed into the scheduling site's candidate box.
- `TableGenerator` covers the cell texts of the summary table in
  `src/utils/table_generator.py`.

Four shared modules support the others:

- `Text` models Python's `str.strip` and `str.split`, `'sep'.join`, and
  `int`/`str` on integers.
- `Dict` models Python's insertion-ordered dictionaries as sequences of
  pairs; `Put` keeps a key where it first appeared. It also defines the
  `Json` values the client and the parser produce.
- `Sorting` provides a stable insertion sort keyed by sequences of strings,
  compared as Python compares tuples.
- `Pandas` models a cell of a table read by `pd.read_csv`: a text, or NaN
  when the field is one of pandas' default missing-value markers (the empty
  field among them). NaN prints as "nan".

The mutating loops of the source stay loops. Examples:

- multipart and form building with `+=`;
- the parser's nested table, row, cell and attribute loops;
- the row loop of the results page;
- the checkbox loop;
- the directory deletions.

Each such method is proved equal to a specification function. The lemmas
state what the source promises about that function:

- round trips for the multipart body, the form body and the CSV lines;
- which keys and values the parsed page holds;
- de-duplication and order of extracted rows;
- which directories survive cleanup;
- when each step reports success.

## Model

| member | source | states |
|---|---|---|
| ApiClient.WaitTime | api_version/api_client.py:34-41 | No wait before the first request or once the interval has passed; otherwise the wait is exactly what is left of the interval. After the wait a full interval has passed since the previous request. The wait is never negative. |
| ApiClient.FacilityClient.WaitForInterval | api_version/api_client.py:34-42 | The client sleeps `WaitTime` on its clock. It then records the time after the sleep as the last request time. |
| ApiClient.FirstSuccess | api_version/api_client.py:90-97 | The index of the first attempt in range that does not fail, with every earlier attempt failing. None exactly when every attempt in range fails. |
| ApiClient.SendWithRetries | api_version/api_client.py:87-105 | The loop's outcome and number of attempts are those of the retry specification. Its sleeps are `delay * 2^(k-1)` after each failed attempt k except the last. |
| ApiClient.RetrySucceedsIff | api_version/api_client.py:87-105 | A response is returned iff some attempt within `retry_times` does not fail. It is then the first such attempt's status and body, and every earlier attempt failed. The call raises iff `retry_times >= 1` and every attempt fails. |
| ApiClient.ReturnedStatusChecked | api_version/api_client.py:95-97 | With `raise_for_status`, a returned response never carries a 4xx/5xx status. |
| ApiClient.DefaultRetrySchedule | api_version/api_client.py:87-105 | With the default configuration there are 1 to 3 attempts and never zero. The sleeps are a prefix of `[5.0, 10.0]`, at most 15 seconds in total. |
| ApiClient.BackoffNonNegative | api_version/api_client.py:100-103 | With a non-negative retry delay, the backoff sleeps add up to a non-negative time. |
| ApiClient.BoundaryNoNewline | api_version/api_client.py:70 | The boundary `----WebKitFormBoundary` plus a random suffix has no line break when the suffix has none. |
| ApiClient.EncodeMultipart | api_version/api_client.py:73-79 | The `+=` loop builds the multipart body: one part per field in dictionary order, then the closing delimiter. |
| ApiClient.MultipartRoundTrip | api_version/api_client.py:69-81 | Reading the multipart body back with its boundary recovers exactly the fields, in order, when no key, value or boundary holds a line break. |
| ApiClient.CommonHeaders | api_version/api_client.py:51-59 | The seven common headers, in the program's order, with the given `traceparent`. |
| ApiClient.CommonHeaderNamesDistinct | api_version/api_client.py:51-59 | The common header names are distinct, and none is `content-type`. |
| ApiClient.MergedHeaders | api_version/api_client.py:61 | After `headers.update(common_headers)` every common header has its common value. Every other header keeps the caller's value. |
| ApiClient.ShapedHeadersMerged | api_version/api_client.py:61-86 | Shaping changes no header except `content-type`. A caller's `content-type` leaves headers and body as merged. |
| ApiClient.ShapedHeaders | api_version/api_client.py:51-86 | In the sent request, common headers carry their fixed values and the caller's other headers are kept. A caller-supplied `content-type` keeps the body unshaped. |
| ApiClient.ShapedMultipart | api_version/api_client.py:69-81 | A POST of a dictionary holding the token, without `content-type`, gets `multipart/form-data; boundary=<b>`. Its body, decoded with that same boundary, is the dictionary. |
| ApiClient.BasicFields | api_version/api_client.py:245-257 | The eleven single-valued search fields, keys and values in the program's order. |
| ApiClient.Repeated | api_version/api_client.py:266-271 | One `(key, str(v))` field per value, in list order. |
| ApiClient.AppendRepeated | api_version/api_client.py:266-271 | The `form_data += "&key=value"` loop appends the repeated fields to the encoded form. |
| ApiClient.EncodeDict | api_version/api_client.py:259-263 | The `key=value` loop with `&` between fields encodes the dictionary. |
| ApiClient.BuildSearchForm | api_version/api_client.py:241-271 | The search body is the basic fields, then one area field per area, then one weekday field per configured weekday. All are `&`-joined `key=value` with values verbatim. |
| ApiClient.FormRoundTrip | api_version/api_client.py:259-271 | Splitting the form on `&` and each field at its first `=` recovers the fields. This needs keys free of `=` and `&` and values free of `&`. |
| ApiClient.SearchFormRoundTrip | api_version/api_client.py:245-271 | Under those conditions the search body decodes back to exactly the basic, area and weekday fields, in that order. |
| ApiClient.BasicValuesOf | api_version/api_client.py:245-257 | The basic fields hold no area or weekday field, and hold the token exactly once. |
| ApiClient.SearchAreaValues | api_version/api_client.py:266-267 | The body's area fields are exactly the areas, in order, so there are `len(areas)` of them; with no areas given they are the default areas (lines 227-228). |
| ApiClient.SearchWeekdayValues | api_version/api_client.py:270-271 | The body's weekday fields are exactly the configured default weekdays, in order. |
| ApiClient.SearchTokenValue | api_version/api_client.py:256 | The token appears exactly once in the search body. |
| ApiClient.DetailUrlShape | api_version/api_client.py:299 | `./X` and `/X` both give `base_url + "/X"`. |
| ApiClient.DetailAttached | api_version/api_client.py:295-325 | With a follow-up path and a 200 detail page, the answer gains `DetailData`, the parsed page, and is otherwise unchanged. Without either it is returned as it came. A follow-up that raises leaves no answer at all. |
| ApiClient.FirstTokenInput | api_version/api_client.py:128 | The first `<input>` named `__RequestVerificationToken`, and none before it. None when there is no such input. |
| ApiClient.SearchAfterSessionIff | api_version/api_client.py:230-329 | Once a session exists, a search gives an answer iff three things hold. The second home visit does not raise. The search POST returns JSON other than `null` with a non-error status. A named detail page answers at all. A JSON `null` is Python's None, returned as it is, so an answer is never `null`. |
| ApiClient.FacilityClient.constructor | api_version/api_client.py:17-23 | A new client has no token, no expiry time and last request time 0. |
| ApiClient.FacilityClient.MakeRequest | api_version/api_client.py:44-105 | The wait happens once per logical request: the last request time is set once, not per retry. The outcome is the retry specification's. One identical call is logged per attempt. The clock advances by the backoff sleeps. |
| ApiClient.FacilityClient.SendLogged | api_version/api_client.py:87-105 | The retry loop as run by the client: outcome, logged attempts and clock advance as specified. |
| ApiClient.FacilityClient.InitSession | api_version/api_client.py:107-148 | Succeeds iff the home page, fetched with retries, has a token input with a value; the status calls do not affect this. On success the token is that value. Its expiry is the clock right after the home GET (the interval wait plus the retry sleeps) plus `session_expire`, and both status POSTs are sent. On failure the token and its expiry are unchanged and only the home GET attempts were sent. |
| ApiClient.FacilityClient.PostStatusCalls | api_version/api_client.py:150-200 | The site-closing and session-interval POSTs carry the current token and are both sent. Their outcomes are ignored. |
| ApiClient.FacilityClient.PostSearch | api_version/api_client.py:273-287 | The search POST is sent with the built form, and its outcome is the retry specification's. |
| ApiClient.FacilityClient.SearchWithSession | api_version/api_client.py:230-329 | The answer is the session-search specification, None for a JSON `null` answer. The search POST is among the calls sent unless the second home visit raises. |
| ApiClient.FacilityClient.SearchFacilities | api_version/api_client.py:202-329 | Init fails: None, token unchanged, and only the home GET attempts are sent, so no search. Init succeeds: the token is the page's, and the answer is as in `SearchWithSession`. |
| ApiClient.FacilityClient.AttachDetail | api_version/api_client.py:295-323 | The follow-up GET is made with `raise_for_status=False`, and the answer is as `DetailAttached` states. |
| Parsers.HeaderSource | api_version/parsers.py:33-35 | Headers are the stripped `thead th` texts, or all `th` texts when there are none. There are no headers only when the table has no `th` at all. |
| Parsers.HeaderKey | api_version/parsers.py:44 | A header key has the header's length. Each ASCII space and U+3000 becomes `_`, and every other character is kept. |
| Parsers.WriteCellHead | api_version/parsers.py:43-50 | A mapped cell writes its stripped text under the key, and `<key>_link` with the first anchor's href when it has anchors. |
| Parsers.WriteDataAttributes | api_version/parsers.py:52-56 | The attribute loop writes `<key>_<attr>` for each `data-*` attribute, in order. |
| Parsers.WriteCell | api_version/parsers.py:42-56 | All writes of one mapped cell, in the program's order. |
| Parsers.FillFacility | api_version/parsers.py:39-57 | The cell loop builds the row's dictionary from the cells with an index below the header count. |
| Parsers.TableFacilities | api_version/parsers.py:38-59 | The row loop keeps the non-empty row dictionaries, in row order. |
| Parsers.CollectFacilities | api_version/parsers.py:28-62 | The table loop collects the facilities table by table. |
| Parsers.FileSections | api_version/parsers.py:70-78 | The section loop files each section text under its key, later ones overwriting. |
| Parsers.FileBody | api_version/parsers.py:27-85 | A page that is not an error page gets the facilities, date range, section and warnings writes, in that order. |
| Parsers.ParseHtmlContent | api_version/parsers.py:9-92 | The imperative parser gives exactly the specification dictionary for every page, including the error page and the failing page. |
| Parsers.ParseEnvelope | api_version/parsers.py:15-18 | Every result has `html_content=True` and a title: the page's, "无标题" when absent, "解析失败" when parsing raises. A raising parse (lines 87-92) reports its message under `error`. |
| Parsers.EnvelopeLookup | api_version/parsers.py:15-18 | The envelope holds exactly `html_content` and `title`. |
| Parsers.ErrorPageResult | api_version/parsers.py:20-25 | An error page gives exactly the keys `html_content`, `title`, `error`, `error_message`. `error` is True, and the message is the first `.page-body` text or "未知错误". No `facilities` key is set. |
| Parsers.FacilitiesEntry | api_version/parsers.py:28-62 | On other pages `facilities` is present iff some row gave a non-empty dictionary. It is then the list of them, table by table and row by row. |
| Parsers.FacilitiesOrigin | api_version/parsers.py:28-62 | A dictionary is among the facilities iff it is non-empty and is the dictionary of some body row of some table. |
| Parsers.RowFacilitiesOrigin | api_version/parsers.py:38-59 | A dictionary is among one table's facilities iff it is non-empty and some row's. |
| Parsers.RowWritesMappedOnly | api_version/parsers.py:41-42 | Cells past the last header contribute nothing. |
| Parsers.DataWritesKeys | api_version/parsers.py:53-56 | The attribute keys written are exactly `<key>_<name>` for the cell's `data-*` attributes. |
| Parsers.CellWritesKeys | api_version/parsers.py:43-56 | A mapped cell writes exactly its key, `<key>_link` when it has an anchor, and its `data-*` keys. |
| Parsers.RowFacilityContents | api_version/parsers.py:39-58 | A row's dictionary has a key iff some mapped cell writes it, and holds that key's last written value. The dictionary is empty iff the row has no cells or the table no headers. |
| Parsers.RowFacilityEmpty | api_version/parsers.py:41-58 | A row is dropped (empty dictionary) exactly when it has no cells or the table no headers. |
| Parsers.DateRangeEntry | api_version/parsers.py:65-67 | `date_range` is present iff there is a date term, and is the first one stripped. |
| Parsers.SectionWritesLast | api_version/parsers.py:70-78 | A section key holds the text of the last section filed under it. Absent when none is. |
| Parsers.SectionEntries | api_version/parsers.py:70-78 | On the result: `area_info`, `facility_type` and `purpose_info` hold their last filed section text. Tests use the order 区, then 施設/設備, then 用途. |
| Parsers.SectionLastWriteNone | api_version/parsers.py:70-78 | Sections write no key but those three. |
| Parsers.WarningsEntry | api_version/parsers.py:81-83 | `warnings` is present iff there is an alert or error message, and is all of their stripped texts in order. |
| Text.StripShape | src/pages/search_results_page.py:43 | `strip()` keeps only characters of the input, leaves no whitespace at either end, and changes nothing when there is none. |
| Text.IntRoundTrip | browser_version/src/pages/date_time_input.py:202-217 | `int(str(i)) == i` for every integer. |
| Sorting.SortBy | api_version/output_handlers.py:63 | `sorted` gives a permutation of its input, ordered by the key. |
| Sorting.SortStable | api_version/output_handlers.py:63 | The sort is stable: records with equal keys keep their input order. |
| OutputHandlers.Fields | api_version/output_handlers.py:72 | The four written fields are 施設, 室場, 日付, 時間帯, each "" when missing. |
| OutputHandlers.RowText | api_version/output_handlers.py:72 | A data line is the four fields separated by single commas, unquoted. |
| OutputHandlers.CsvLines | api_version/output_handlers.py:68-73 | One header line and one line per record, so 1 + n lines. |
| OutputHandlers.SaveCsvText | api_version/output_handlers.py:63-73 | The write loop produces the CSV text: header, then each sorted record's line, each ending in a newline. |
| OutputHandlers.CsvHeader | api_version/output_handlers.py:68 | The text starts with exactly `施設,室場,日付,時間帯\n`. |
| OutputHandlers.CsvFileLines | api_version/output_handlers.py:68-73 | When no field holds a newline, splitting the text on newlines gives the header, one line per sorted record, then "". |
| OutputHandlers.RowFields | api_version/output_handlers.py:72 | When no field holds a comma, splitting a data line on commas recovers the four fields. |
| OutputHandlers.CsvOrder | api_version/output_handlers.py:63 | The written records are a permutation of the input in non-decreasing (日付, 時間帯) order. Records with equal date and slot keep their input order. |
| SearchResultsPage.ReadHiddenCodes | src/pages/search_results_page.py:61-75 | The input loop finds the same codes as the last-input-wins specification. |
| SearchResultsPage.LastWins | src/pages/search_results_page.py:66-75 | Each code is the value of the last input of its kind, or None if there is none. |
| SearchResultsPage.KindPriority | src/pages/search_results_page.py:70-75 | FacilityCode is tested first, then ObjectCode, then UseDate. A name with "Display" is never UseDate. |
| SearchResultsPage.ExtractRow | src/pages/search_results_page.py:50-86 | The row step gives the specification's record. |
| SearchResultsPage.ExtractFields | src/pages/search_results_page.py:50-86 | A row gives a record iff it has at least five cells and every hidden input has a name (a nameless one makes the `in` test raise, and the row is skipped). Its fields are the stripped `cells[1..4]` (not `cells[0]`) and the last-wins codes. |
| SearchResultsPage.ProcessRow | src/pages/search_results_page.py:42-86 | One row: skipped when its stripped text is empty or already seen, otherwise marked seen and extracted. |
| SearchResultsPage.ProcessPage | src/pages/search_results_page.py:39-90 | One snapshot: its rows after the first, processed in order. |
| SearchResultsPage.ReadPages | src/pages/search_results_page.py:29-118 | The paging loop collects the records of all snapshots' rows, in snapshot then row order. It stops at the first empty snapshot. |
| SearchResultsPage.LoadAllResults | src/pages/search_results_page.py:10-127 | The result is the records, or None when there are none. |
| SearchResultsPage.KeptFresh | src/pages/search_results_page.py:43-47 | Only rows with a non-empty text not seen before are processed. |
| SearchResultsPage.KeptDistinct | src/pages/search_results_page.py:43-47 | No two processed rows share their stripped text: at most one record per distinct row text, across snapshots. |
| SearchResultsPage.KeptCovers | src/pages/search_results_page.py:43-47 | Every non-empty row text not seen before has a processed row. |
| SearchResultsPage.LaterDuplicateDropped | src/pages/search_results_page.py:44-45 | A later row with an already-seen text adds nothing. |
| SearchResultsPage.ShortRowNoRecord | src/pages/search_results_page.py:47-52 | A row with fewer than five cells adds no record, though its text is marked as seen. |
| SearchResultsPage.HeaderIgnored | src/pages/search_results_page.py:40 | The first row of every snapshot is skipped: replacing it changes nothing. |
| ResultComparator.Unmatched | src/core/utils/result_comparator.py:32-34 | A row is kept iff its name is not among the given names. |
| ResultComparator.UnmatchedOrder | src/core/utils/result_comparator.py:32-34 | The mask keeps order and multiplicity. It distributes over concatenation, keeps one row iff its name is not listed, and leaves a table with no listed name whole. |
| ResultComparator.CompareFiles | src/core/utils/result_comparator.py:22-66 | None when a file is unreadable or either file lacks 施設名 or 空き状況, which raise `KeyError` at :32-38 and land in `except Exception`. Otherwise the diff of the two tables' rows. |
| ResultComparator.Joined | src/core/utils/result_comparator.py:37 | The merge on 施設名 pairs exactly the current and previous rows with equal names; a NaN name matches a NaN name. |
| ResultComparator.StatusChanged | src/core/utils/result_comparator.py:38 | Exactly the pairs whose 空き状況 differ under pandas' `!=`, where NaN differs from everything, itself included. |
| ResultComparator.CompareParts | src/core/utils/result_comparator.py:31-38 | `new` is the current rows with no previous namesake. `removed` is the previous rows with no current namesake. `changed` is the same-name pairs whose statuses differ, or where either is NaN. |
| ResultComparator.AddedApart | src/core/utils/result_comparator.py:32-37 | No name in `new` occurs in `changed`. Every current row is new or has its name in the previous table. |
| ResultComparator.SelfCompare | src/core/utils/result_comparator.py:31-38 | A table compared with itself has nothing new or removed. It has nothing changed when names are unique and no status is NaN. A row whose status is NaN is always changed against itself. |
| ResultComparator.NamesIn | src/core/utils/result_comparator.py:32 | `isin` on names: a name is among a table's names iff some row has it. |
| CsvUtils.FilenameSuffix | browser_version/src/utils/csv_utils.py:28-36 | The file name always ends in `.csv`. A given name ending in `.csv` is kept, any other gets one `.csv` appended. No name gives `search_results_<timestamp>.csv`. |
| CsvUtils.FilenameIdempotent | browser_version/src/utils/csv_utils.py:35-36 | Applying the rule to its own result changes nothing. |
| CsvUtils.PathJoinEnds | browser_version/src/utils/csv_utils.py:39 | The path ends with the file name. |
| CsvUtils.FlattenLength | browser_version/src/utils/csv_utils.py:60 | The merged table has the sum of the input lengths. |
| CsvUtils.FlattenPosition | browser_version/src/utils/csv_utils.py:60 | Row j of table i sits in the merged table right after all rows of the earlier tables. |
| CsvUtils.MergeOutcome | browser_version/src/utils/csv_utils.py:51-67 | A path comes back iff the list is non-empty and the write succeeds. The saved rows are then the concatenation in list order, under the file name rule. |
| FileHandler.Keep | src/core/utils/file_handler.py:38-39 | An entry survives the deletions iff it was there and its name was not deleted. |
| FileHandler.MakeDir | src/core/utils/file_handler.py:25 | `makedirs(exist_ok=True)` fails iff a plain file holds the name (`FileExistsError`). Otherwise the directory is then listed, and it is added only when the name is new. |
| FileHandler.MakeDirUnique | src/core/utils/file_handler.py:25 | A successful `makedirs` keeps the listing's names unique. |
| FileHandler.OutputStore.constructor | src/core/utils/file_handler.py:13-18 | The base directory is `<cwd>/output`, with no timestamp chosen yet. |
| FileHandler.OutputStore.TimestampDir | src/core/utils/file_handler.py:20-26 | The first call chooses the timestamp and creates its directory. When `makedirs` raises, the timestamp stays chosen, the listing is unchanged and no directory comes back. Later calls change nothing and return the same directory. |
| FileHandler.OutputStore.CleanupOldDirs | src/core/utils/file_handler.py:28-39 | The listing becomes `Cleaned` of the old listing, and names stay unique. |
| FileHandler.OutputStore.DeleteDirs | src/core/utils/file_handler.py:38-39 | The deletion loop removes exactly the named directories. |
| FileHandler.DeleteEach | src/core/utils/file_handler.py:38-39 | The `rmtree` loop over the doomed names leaves `Keep` of the listing. |
| FileHandler.OutputStore.SaveTaskResults | src/core/utils/file_handler.py:41-55 | The task file is `<current_dir>/<task_name>.csv`, memoising the directory. It is recorded as written when the write succeeds. It raises, writing nothing, iff the directory cannot be made. |
| FileHandler.OutputStore.SaveMergedResults | src/core/utils/file_handler.py:57-73 | The merged file is `<current_dir>/all_results.csv`. Cleanup always runs after the write. When the directory cannot be made it raises before writing or cleaning up. |
| FileHandler.FewDirsKept | src/core/utils/file_handler.py:35 | With at most two candidate directories nothing is deleted. |
| FileHandler.RemainingLastTwo | src/core/utils/file_handler.py:35-39 | With more than two, exactly the two greatest names in sort order remain. |
| FileHandler.TwoGreatestKept | src/core/utils/file_handler.py:35-39 | With more than two, the remaining candidates are two names a < b. Every removed candidate is below both. |
| FileHandler.NonCandidatesKept | src/core/utils/file_handler.py:31-33 | "differ" and plain files are never deleted. |
| FileHandler.NewestDirKept | src/core/utils/file_handler.py:57-71 | The current run's directory, when its name is the greatest, survives the cleanup. |
| FileHandler.SortedDirsIncreasing | src/core/utils/file_handler.py:37 | Sorted distinct directory names are strictly increasing. |
| DateTimeInput.OrElse | browser_version/src/pages/date_time_input.py:22-23 | A falsy date (None or "") is replaced by the configured one. |
| DateTimeInput.SelectValue | browser_version/src/pages/date_time_input.py:109-139 | The select reads back the requested value iff the value is an option or is "". Otherwise it reads "". |
| DateTimeInput.SearchForm.InputDateRange | browser_version/src/pages/date_time_input.py:13-76 | The inputs receive the dates, defaults filled in. Both inputs are looked up before either is typed into, so a missing one leaves both unchanged. Success iff both exist and read back the dates. |
| DateTimeInput.SearchForm.SelectTimeRange | browser_version/src/pages/date_time_input.py:78-158 | The start select, when present, is set. The end select is set only when both exist, so a page with only the start select keeps the start time and fails. Success iff both exist and read back the requested times. |
| DateTimeInput.Decided | browser_version/src/pages/date_time_input.py:187-204 | The loop gets as far as the first box whose value `int()` rejects; the step then fails. |
| DateTimeInput.SearchForm.Click | browser_version/src/pages/date_time_input.py:235-240 | A click toggles that box's checked state and no other box's. |
| DateTimeInput.SearchForm.SelectWeekdays | browser_version/src/pages/date_time_input.py:160-233 | The boxes are toggled as the decision rule says, up to the first undecidable value. The result is the weekday outcome. |
| DateTimeInput.SearchForm.CollectSelected | browser_version/src/pages/date_time_input.py:207-210 | The values of the checked boxes, in box order. |
| DateTimeInput.Requested | browser_version/src/pages/date_time_input.py:214-222 | True iff every requested day's string is among the selected values, plus "8" when holidays are included. |
| DateTimeInput.EmptyNeverClicked | browser_version/src/pages/date_time_input.py:189-191 | A box with no or an empty value is never clicked. |
| DateTimeInput.HolidayBoxRule | browser_version/src/pages/date_time_input.py:194-200 | The "8" box is clicked iff holidays are included, even when 8 is a selected day. |
| DateTimeInput.WeekdayBoxRule | browser_version/src/pages/date_time_input.py:201-204 | Any other box is clicked iff `int(value)` is a selected day. |
| DateTimeInput.HolidayString | browser_version/src/pages/date_time_input.py:217 | `str(day)` is "8" exactly for day 8. |
| DateTimeInput.ClickedAtMostOnce | browser_version/src/pages/date_time_input.py:187-204 | Each box is toggled at most once per call. |
| DateTimeInput.SelectedValuesIn | browser_version/src/pages/date_time_input.py:207-210 | A value is selected iff some checked box has it. |
| DateTimeInput.UncheckedStart | browser_version/src/pages/date_time_input.py:187-210 | From all boxes unchecked, the selected values are exactly those the rule clicks. |
| DateTimeInput.WeekdaysSuccess | browser_version/src/pages/date_time_input.py:160-229 | From all unchecked, `select_weekdays` succeeds iff every requested weekday other than 8 has a box. When holidays are included or 8 is requested, holidays must also be included and have a box. Extra boxes do not matter. |
| ResultsHandler.LatestIsFirstNewest | browser_version/src/core/chouseisan/results_handler.py:44 | The latest folder has the greatest mtime and is the first of them, as with Python's `max`. |
| ResultsHandler.LatestResultsFileSome | browser_version/src/core/chouseisan/results_handler.py:29-53 | A path comes back iff there are folders and the latest holds `all_results.csv`. It then ends in `all_results.csv`. |
| ResultsHandler.ColumnIndex | browser_version/src/core/chouseisan/results_handler.py:148 | The first column of that name, or None when there is none. |
| ResultsHandler.TextColumns | browser_version/src/core/chouseisan/results_handler.py:148 | The line needs all four columns. A missing one is a failure. |
| ResultsHandler.Cell | browser_version/src/core/chouseisan/results_handler.py:148 | A text cell prints as itself. A NaN cell, or a cell missing from a short row, prints as "nan". |
| ResultsHandler.Lines | browser_version/src/core/chouseisan/results_handler.py:147-148 | One line per CSV row, in row order: its 设施名称, 室场名称, 日期 and 时间段 cells as `Cell` prints them, separated by spaces. |
| Pandas.ReadFormat | browser_version/src/core/chouseisan/results_handler.py:139 | A field read by `read_csv` is NaN iff it is a default missing-value marker. It then prints as "nan", and otherwise as itself. An empty field prints as "nan". |
| ResultsHandler.BuildInputText | browser_version/src/core/chouseisan/results_handler.py:146-149 | The `+=` loop builds the concatenation of each row's `设施名称 室场名称 日期 时间段\n`. |
| ResultsHandler.InputTextLines | browser_version/src/core/chouseisan/results_handler.py:146-149 | Splitting the typed text on newlines gives back the rows' lines, then "". |
| ResultsHandler.EventPage.constructor | browser_version/src/core/chouseisan/results_handler.py:19-27 | A fresh page: nothing deleted, typed or saved. |
| ResultsHandler.EventPage.DeleteExistingSlots | browser_version/src/core/chouseisan/results_handler.py:55-117 | Every button whose click works is deleted, and a failing one does not stop later ones. Success iff the textarea exists, whatever the buttons did. |
| ResultsHandler.EventPage.UpdateWithSearchResults | browser_version/src/core/chouseisan/results_handler.py:119-205 | With no results file, an unreadable or empty table, or a missing column: False, textarea untouched. Otherwise the text is typed and the name stamped when the input exists. The result is whether the save click worked; a missing name input does not fail it. |
| ResultsHandler.Kept | browser_version/src/core/chouseisan/results_handler.py:89-102 | The remaining slots are among the original ones. |
| ResultsHandler.KeptOrder | browser_version/src/core/chouseisan/results_handler.py:89-102 | The slots left keep page order. The filter distributes over concatenation, drops one slot iff it is deleted, and keeps all when none is deleted. |
| ResultsHandler.DeletionLeavesFailed | browser_version/src/core/chouseisan/results_handler.py:89-102 | After one pass from a fresh page, a slot text remains iff some slot holding it had a failed click. None remain when every click works, and all when none does. |
| TableGenerator.DateTimes | src/utils/table_generator.py:69 | Each row's combined column is `日期 + " " + 时间段`, NaN when either part is NaN. |
| TableGenerator.GroupKeyIn | src/utils/table_generator.py:94-97 | There is a group per (search type, facility, room) of a row whose three key cells are all text, and no other: `groupby` drops rows with a NaN key part. |
| TableGenerator.GroupKeysIncreasing | src/utils/table_generator.py:94-97 | The groups come in strictly increasing key order, as `groupby` sorts them, so each appears once. |
| TableGenerator.GroupTimesDistinct | src/utils/table_generator.py:99 | A group's date-times are distinct and are exactly those of its kept rows. |
| TableGenerator.UniqueElements | src/utils/table_generator.py:99 | `unique()` keeps exactly the values that occur. |
| TableGenerator.UniqueDistinct | src/utils/table_generator.py:99 | `unique()` repeats nothing. |
| TableGenerator.FirstAppearance | src/utils/table_generator.py:99 | `unique()` keeps first-appearance order. |
| TableGenerator.FormatTimes | src/utils/table_generator.py:100-102 | The chunking loop joins consecutive pairs of date-times with "\n". |
| TableGenerator.PairsJoin | src/utils/table_generator.py:100-103 | Joining the pairs with "\n" equals joining all date-times with "\n". |
| TableGenerator.GroupRow | src/utils/table_generator.py:97-104 | A group's row is its search type, facility, room and date-time text. It raises iff one of the group's date-times is NaN, which `'\n'.join` rejects. |
| TableGenerator.DataRow | src/utils/table_generator.py:104 | Every data row has four cells. |
| TableGenerator.TableRows | src/utils/table_generator.py:87-104 | Row 0 is the four headers, then one row per group, in order. It raises iff some group has a NaN date-time. |
| TableGenerator.BuildTableData | src/utils/table_generator.py:87-104 | `table_data` is the header row `时间, 设施名称, 室场名称, 日期和时间段`, then exactly one four-cell row per distinct group. It raises iff a row with text key cells has a NaN 日期 or 时间段. |
| TableGenerator.RaisesIff | src/utils/table_generator.py:69-104 | A kept row with a NaN date or slot is exactly a visited group with a NaN date-time. |

## Left out

- HTTP transport, `requests.Session`, cookies and default session headers
  (api_version/api_client.py:20-32, 111-118) are not modelled. Each
  exchange is given as the server's answer to each attempt: a status and
  body, or a transport error.
- JSON decoding is not modelled: a search answer is already a JSON value,
  or None when `response.json()` raises. `print` and `json.dumps` of the
  answer are not modelled either.
- BeautifulSoup is not modelled. A page is what the program's CSS
  selections return, in document order. Parsing the home page for the
  token is modelled as the list of `<input>` attribute dictionaries.
- On the clock: `time.time()` is the client's `clock` field, and only the
  program's own sleeps advance it. Network latency is not modelled.
  `datetime.now()` strings are parameters.
- The random `traceparent` and multipart boundary suffix are parameters of
  each exchange. The `traceparent` format is not checked.
- ApiClient.FacilityClient.constructor: requires a non-negative retry
  delay, so a negative one is simply not modelled. In the source, the
  first backoff `time.sleep` of a negative time raises `ValueError` out of
  `_make_request`. Its callers' `except Exception` (api_version/api_client.py
  lines 146, 172, 198 and 327) turn that into a failed step.
- ApiClient.FacilityClient.MakeRequest: the request log `sent` records the
  caller-side call, not the shaped request. `ShapeRequest` / `Wire` and the
  `Shaped*` lemmas state what goes on the wire.
- ApiClient.FacilityClient.InitSession: on success the log is stated
  through containment only: the status POSTs are among the new entries.
  It is not given entry by entry.
- ApiClient.FacilityClient.SearchFacilities: on success the log is stated
  only as growing. `SearchWithSession` states that the search POST is
  among the new entries.
- ApiClient.FacilityClient.PostStatusCalls: the outcomes of the two status
  POSTs are discarded, as in the source. Their JSON answers are not
  modelled.
- Python exceptions are modelled as outcomes (`Raised`, `Malformed`, None)
  at the place where the source catches them. An `int()` failure inside
  the weekday loop ends the loop: `Decided`.
- Text.ParseInt models `int()` on ASCII digits with surrounding
  whitespace and a sign. Underscores and non-ASCII digits, which Python
  also accepts, are not modelled.
- Selenium waits, scrolling, JavaScript fallbacks and sleeps are not
  modelled. A checkbox click always goes through (the JavaScript fallback
  of `_click_checkbox`).
- The "load more" click is the passage from one snapshot to the next. The
  snapshot sequence ends where the button is not found. An element lookup is a presence flag. A date input reads back
  what was typed. A select reads back the value, or "" when there is no
  such option (the JavaScript fallback sets `value` to an unknown option).
- pandas is modelled only through `Pandas.Value`: a cell is a text or NaN.
  - The CSV text itself (quoting, delimiters, blank lines) is not parsed;
    a table is given as its column names and its rows' cells.
    `Pandas.Read` states which fields `read_csv` reads as NaN.
  - ResultsHandler.Cell: dtype inference is not modelled. Cells are text,
    while pandas makes an all-number column numeric. A number column with
    a NaN cell is float, so its cells print as "1.0" rather than "1".
  - TableGenerator.Raises: a 日期 or 时间段 column that is NaN in every row
    is float, and `df['日期'] + ' '` raises at table_generator.py:69 even
    when `groupby` later drops every row. The model raises only when a
    kept row has the NaN.
  - The comparator's `source` column and the merge's suffixes are not
    modelled, and a pair is a (current, previous) row.
- The diff CSV files and printed counts of `ResultComparator.compare`
  (src/core/utils/result_comparator.py:40-56) are not modelled.
- ResultComparator.CompareFiles: a failed `to_csv` write of a diff file
  (result_comparator.py:50-56) also makes `compare` return None. The model
  does not write those files and so does not have that path.
- File I/O: whether a CSV write succeeds is the parameter `writeOk`. The
  output directory is a listing of names with a directory flag;
  `rmtree` removes one name.
- The figure of the summary table (src/utils/table_generator.py:10-54,
  75-86, 106-178) is not modelled: fonts, column widths, sizes and
  matplotlib output.
- `create_output_directory` and `save_json_result` in
  api_version/output_handlers.py are not modelled.
- FileHandler.OutputStore.TimestampDir: the timestamp is a parameter, and
  there is no claim that successive runs get increasing names.
  `NewestDirKept` assumes the current name is the greatest.
- The entry points, the home-page, login, element and updater helpers, the
  executor, the driver lookup and the configuration files are not part of
  this model. Configuration values are inlined as constants (`DefaultConfig`,
  `DefaultAreas`, `DefaultWeekdays`).
