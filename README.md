# Port-logistics export pipeline: a verified model

This project models the core of a small Python pipeline for a port logistics web system.
The pipeline:

- logs in to the system, optionally solving a captcha, and refreshes the `AUTH_TOKEN` and
  `COOKIE` used by the other API calls;
- pages through the `listRealTrainInfo` endpoint to collect every train record, and picks
  the distinct train codes that depart on a given day;
- downloads the `exportLoadedBox` workbook for those codes;
- splits a downloaded workbook into one file per actual booking customer;
- merges per-direction records into workbooks whose rows are deduplicated by key.

All of it is modelled over values:

- **Dicts, lists, tuples and scalars.** These become the `Values.Value` datatype. A dict is an
  ordered entry list, because Python dicts keep insertion order.
- **The process environment.** This is a `map<string, string>`.
- **The HTTP server.** This is an oracle: a function from the global call number and the
  request to a delivered response or a failure.
- **The file system.** This is a map from paths to contents, passed in and returned.
- **Spreadsheets.** These are column lists and rows of cells.
- **Python's exceptions.** These become the `Wrappers.Error` datatype.

Where the source updates things step by step, the model does too:

- The retry loops, the page loop, the day filter's two loops, the Cookie header loops, the
  key-path walks and the group/direction loops are methods with loop invariants. Each is
  proved equal to a specification function.
- `_apply_auth_to_headers` mutates a headers dict in place. It is a method of the class
  `Login.Headers`.

Three placeholder-injection policies exist in the source. Each is modelled separately, and
lemmas relate them:

- `utils.py` and `login.py` are lenient: an unset variable leaves `${NAME}` as it is.
- `fetcher.py` is strict: an unset variable becomes `""`, and tuples are left untouched.

## Model

| member | source | states |
|---|---|---|
| Env.PlaceholderRoundTrip | login.py:28-34 | a string is a placeholder exactly when it is `${` + name + `}`, and `value[2:-1]` recovers that name |
| Env.PlaceholderNamed | login.py:172-177 | a placeholder names AUTH_TOKEN (or COOKIE) exactly when it is the literal `${AUTH_TOKEN}` (`${COOKIE}`) |
| Values.Get | utils.py:29 | `d.get(k)` is absent exactly when k is not a key of d |
| Values.GetFound | utils.py:29 | what `d.get(k)` returns is the value of an entry with key k |
| Values.SetGet | login.py:201-210 | after `d[k] = v`, `d.get(k)` is v |
| Values.SetKeys | login.py:201-210 | assignment keeps an existing key in its place and appends a new key last |
| Values.SetOther | login.py:201-210 | assignment to one key leaves every other key's value unchanged |
| Values.KeyPathMissing | utils.py:43-47 | a key path finds nothing as soon as one key is absent or one step lands on a non-dict |
| Utils.InjectPreservesShape | utils.py:5-21 | lenient injection keeps every container's kind, size and keys |
| Utils.InjectAt | utils.py:5-21 | injection commutes with navigation: at every path of the result sits the injection of what was there |
| Utils.InjectLeaf | utils.py:16-19 | a string leaf at any depth becomes its variable's value when it is a set placeholder, and stays as it was otherwise |
| Utils.LenientUnsetIdentity | utils.py:16-19 | when no placeholder names a set variable, injection returns its input unchanged |
| Utils.BuildCookieHeader | utils.py:24-37 | the loop builds the header from the preferred non-empty cookies in preferred order, then every other non-None cookie in dict order, joined by "; " |
| Utils.PreferredKeysAre | utils.py:28-32 | a key is put in front exactly when its value is truthy, and then it is recorded as used |
| Utils.TailEntryIff | utils.py:33-36 | the second loop emits a pair exactly when its key was not used and its value is not None |
| Utils.CookieComplete | utils.py:24-37 | every cookie whose value is not None appears in the header with its value |
| Utils.CookieNoneOmitted | utils.py:28-36 | a None-valued cookie never appears, preferred or not |
| Utils.CookieEmptyPreferredInTail | utils.py:29-36 | a preferred cookie with an empty value is not put in front but still follows in the tail |
| Utils.CookieNoDuplicateKeys | utils.py:26-36 | with distinct preferred keys no cookie name appears twice |
| Utils.CookieHeaderExample | utils.py:24-37 | cookies B=2, A=1, C=3 with preferred keys A, C give "A=1; C=3; B=2" |
| Utils.GetNestedValue | utils.py:40-48 | the walk returns the value at the key path, or None when a key is missing or a step is not a dict |
| Login.ResolveEnvPlaceholder | login.py:32-36 | a placeholder whose variable is set becomes its value; anything else is returned unchanged |
| Login.InjectMatchesUtils | login.py:39-48 | login.py's recursive injection is exactly utils.py's on every value |
| Login.InjectKeepsKeys | login.py:46-47 | injecting a dict keeps its keys in order |
| Login.ExtractJsonPath | login.py:55-61 | the walk returns the value at the key path, or None when a key is absent or a step is not a mapping |
| Login.RequestWithRetry | login.py:64-91 | at most `retries` calls; the first successful response is returned; on exhaustion the last error is raised, and a TypeError (raising None) when no attempt was made |
| Http.RetryShape | login.py:75-91 | a retry run makes at most `retries` calls, every call before the last failed, and the errors are recorded in call order |
| Http.RetryNone | login.py:75-91 | with fewer than one attempt nothing is called and the fall-through raise happens |
| Http.AttemptFailed | login.py:88-90 | a failed attempt appends its error and moves on to the next attempt |
| Http.AttemptSucceeded | login.py:86-87 | a successful attempt ends the run with its response |
| Http.SleepsAt | fetcher.py:78 | after failed attempt k the loop sleeps 2 ** k seconds |
| Login.WordRun | login.py:95 | the leading run of `\w` characters is maximal: all word characters, followed by a non-word character or the end |
| Login.UpToNewline | login.py:95 | `(.*)` takes the longest prefix without a newline |
| Login.DataUrlSplit | login.py:94-97 | a data URL `data:image/<word>;base64,<data>` hands exactly `<data>` to the decoder |
| Login.PlainBase64Whole | login.py:94-97 | text that does not start with `data:image/` is decoded whole |
| Login.CaptchaDecisions | login.py:100-162 | disabled gives None; a set override value gives a result with no request; a missing url is an error before any request; the request is retried at most `retries` times and without a response its last error is raised; for a delivered response, a body that is not JSON or not an object is an error, a falsy image field is ValueError, a non-string one TypeError, text that does not base64-decode is an error, and otherwise the result holds the decoded image, the text recognised from it and the payload's key and rs_id fields (None when absent) |
| Login.AssembleWithoutCaptcha | login.py:195-214 | without a captcha the injected query and payload are sent as they are, apart from password hashing |
| Login.CaptchaQuery | login.py:206-210 | the query gets the captcha value under random_code_param, rs_id under rs_id_param exactly when rs_id is truthy, and keeps every other parameter |
| Login.CaptchaPayload | login.py:199-204 | the payload gets the captcha value under captcha_field, the key under captcha_key_field exactly when both are truthy, and keeps every other field |
| Login.HashPasswordFacts | login.py:212-214 | the password is replaced by its MD5 digest exactly when password_hash is "md5" and a password is present; keys and other fields are unchanged |
| Login.CookieStringIsHeader | login.py:165-167 | the session cookie string is build_cookie_header with no preferred keys |
| Login.AuthRewritten | login.py:170-177 | rewriting the headers keeps every key in its place |
| Login.RewriteAuthValueFacts | login.py:172-177 | only the exact `${AUTH_TOKEN}` and `${COOKIE}` values are rewritten, to the token and cookie string |
| Login.AuthRewrittenAt | login.py:171-177 | every header is rewritten on its own, keeping its key |
| Login.Headers.constructor | login.py:247-248 | a section's headers mapping holds the given entries |
| Login.Headers.ApplyAuth | login.py:170-177 | the in-place loop leaves the headers equal to their rewrite: same keys, placeholders replaced |
| Login.TokenFacts | login.py:230-234 | the token is missing exactly when the path leads nowhere or to null; a token found is the value at the path |
| Login.ExchangeFacts | login.py:216-241 | at most `retries` login calls; without a response the last error is raised, a non-JSON body is an error, a token path leading nowhere or to null is ValueError, and otherwise the token returned is str() of the value at the path with the session's cookie string; the environment changes only on success, to that token and cookie string under the configured names |
| Login.AfterCaptchaFacts | login.py:188-241 | a captcha error propagates before the login request; a missing login url is an error; otherwise the login request is numbered after the captcha calls and the result follows its response as in the exchange (token from the path, missing token is ValueError), with the environment written only on success |
| Login.LoginFacts | login.py:180-252 | disabled does nothing; a captcha error or a missing url stops before the login request; otherwise the token and cookie follow the login response (missing token is ValueError); on every failure the environment is unchanged and on success it holds exactly the returned token and cookie; the call count is bounded by the two retry budgets |
| Login.Exchange | login.py:216-241 | the login request and token extraction compute the exchange the specification describes |
| Login.RefreshSection | login.py:243-249 | a present section's headers are rewritten after a successful login and left alone otherwise |
| Login.ContinueAfterCaptcha | login.py:190-241 | the steps after the captcha compute the specified run |
| Login.LoginAndRefreshAuth | login.py:180-252 | the result, the new environment and the call count are the refresh's specification; the list and export headers are rewritten only after a successful login |
| Fetcher.StrictUnsetIsEmpty | fetcher.py:23-30 | a placeholder naming an unset variable becomes the empty string |
| Fetcher.TupleUntouched | fetcher.py:33-39 | a tuple is a leaf: it is returned untouched, placeholders inside it included |
| Fetcher.StrictAgreesWithLenient | fetcher.py:23-39 | without tuples and unset variables, the strict injection is utils.py's lenient one |
| Fetcher.StrictPreservesShape | fetcher.py:33-39 | strict injection keeps every container's kind, size and keys |
| Fetcher.PostFacts | fetcher.py:68-79 | at most `retries` attempts; a JSON body is required; 2 ** attempt seconds are slept after each failed attempt; with no attempt a TypeError is raised |
| Fetcher.PostWithRetry | fetcher.py:68-79 | the loop's result, call count and sleeps are those of the retry specification |
| Fetcher.BasePayload | fetcher.py:66 | the injected payload template has the template's keys |
| Fetcher.PagePayloadFacts | fetcher.py:99-101 | each page's payload sets the page number field and keeps every other field of the injected template |
| Fetcher.CeilDiv | fetcher.py:96 | `math.ceil(total / page_size)` is the least multiple count that covers total |
| Fetcher.FirstStageFacts | fetcher.py:82-94 | the first request asks for start_page_number alone; a successful stop and the page loop both start from exactly the rows of the first response's body |
| Fetcher.PagesFromFacts | fetcher.py:98-110 | the loop requests ascending page numbers, at most one per remaining page; on success it requests all of them and appends their rows in order; the calls are those of the pages requested, and each page's rows are what its own request returned |
| Fetcher.AdvanceServed | fetcher.py:98-110 | one page of the loop keeps the call count equal to that of the pages requested, and on success the new page's rows are what its request returned |
| Fetcher.PagesFromServed | fetcher.py:98-110 | the whole page loop keeps the call count equal to that of the pages requested, and on success every page's rows are what its own request returned |
| Fetcher.ServedAt | fetcher.py:98-110 | the rows of page j are what the request for page j returned, its first call numbered after the calls of the earlier pages |
| Fetcher.PagesFromCalls | fetcher.py:98-103 | the page loop makes at most `retries` calls per page requested |
| Fetcher.FetchWithFacts | fetcher.py:82-110 | for any page source: ascending page numbers from the start, a call bound per page, the calls are those of the pages requested in order, and on success the rows are every page's rows in order, each page's rows being what its own request returned |
| Fetcher.FetchFacts | fetcher.py:45-110 | page numbers ascend from start_page_number; at most `retries` calls per page; on success the rows are every page's rows in request order, each taken from the `rows` field of the body that page's POST returned |
| Fetcher.PageCount | fetcher.py:86-98 | one request when the first page already holds `total` rows; a ZeroDivisionError for page size 0; otherwise ceil(total / page_size) pages on success |
| Fetcher.FetchAllRealTrainInfo | fetcher.py:45-110 | the method computes the specified fetch run |
| Fetcher.PostPage | fetcher.py:100-103 | one page's request is the page source's outcome for that page |
| Fetcher.FetchPage | fetcher.py:99-105 | one pass of the page loop appends the page's number and, on success, its rows |
| Fetcher.FetchRest | fetcher.py:98-110 | the loop over the remaining pages computes the specified page run |
| Fetcher.CollectErrSticky | fetcher.py:123-128 | a row that raises ends the whole filter with that error |
| Fetcher.CollectCodes | fetcher.py:121-128 | the first loop collects the trimmed non-empty codes of the day's rows in row order, or raises on a row it cannot read |
| Fetcher.DedupCodes | fetcher.py:130-138 | the seen-set loop is the order-preserving keep-first deduplication |
| Fetcher.FilterCodesForDay | fetcher.py:116-138 | the method computes the filter's specification |
| Fetcher.CollectIff | fetcher.py:123-128 | a code is collected exactly when some row contributes it |
| Fetcher.CollectDedupFacts | fetcher.py:121-138 | for any row rule: a code is listed exactly when some row contributes it, each code once, in order of first occurrence |
| Fetcher.FilterFacts | fetcher.py:116-138 | a code is listed exactly when it is the trimmed non-empty real_train_code of a row whose trimmed departure_date starts with the day; each once, in first-occurrence order |
| Fetcher.DownloadExportLoadedBoxXlsx | fetcher.py:144-187 | the method's result, disk, calls and sleeps are the download's specification |
| Fetcher.DownloadAttempts | fetcher.py:166-187 | the attempt loop writes the first delivered body to out_path and returns it; otherwise it raises the last error, or RuntimeError when no attempt was made |
| Fetcher.DownloadFacts | fetcher.py:158-187 | an empty code list raises before any call; at most `retries` calls; the disk changes only on success, at out_path alone, to the last call's body |
| Fetcher.ExportPayloadRoundTrip | fetcher.py:164 | the payload has exactly realTrainCode and flag, and splitting realTrainCode on "," gives the codes back when none holds a comma |
| Dedup.DedupKeySet | fetcher.py:130-138 | deduplication keeps every key and adds none |
| Dedup.DedupNoDup | fetcher.py:130-138 | no two kept elements share a key |
| Dedup.DedupIsSubseq | fetcher.py:130-138 | the kept elements keep their input order |
| Dedup.DedupKeepsFirst | fetcher.py:133-136 | the first element with a key is the one kept |
| Dedup.DedupIsFirstOccurrences | fetcher.py:130-138 | the seen-set scan keeps exactly the first occurrences, in order |
| Dedup.DedupIdempotent | exporter.py:33 | deduplicating twice is deduplicating once |
| Dedup.DedupAppendDedup | exporter.py:29-33 | concatenating to a deduplicated sequence and deduplicating is deduplicating the whole |
| Dedup.DedupKeepsEarlier | exporter.py:29-33 | after concatenation, a kept element whose key the first part has comes from the first part |
| Text.StripIsInfix | processor.py:29 | strip keeps a contiguous block whose ends are not whitespace and drops only whitespace |
| Text.StripEmptyIff | processor.py:88 | a name strips to "" exactly when it is all whitespace |
| Text.StripIdempotent | processor.py:29 | stripping twice is stripping once |
| Text.ReplaceAt | processor.py:20-28 | replace turns every occurrence of the character into the replacement and keeps every other character in place |
| Text.SplitJoin | fetcher.py:164 | splitting a join on its separator gives the parts back when no part contains it |
| Sheets.WhereIff | processor.py:71 | a boolean mask keeps a row exactly when the row is in the sheet and the condition holds |
| Sheets.WhereIsSubseq | processor.py:71 | a mask keeps rows in their order |
| Sheets.WhereCount | processor.py:71 | a mask keeps every occurrence of a row that satisfies it and none of a row that does not |
| Sheets.WhereIdempotent | processor.py:78 | applying a mask twice keeps the same rows |
| Sheets.GroupKeysFacts | processor.py:86 | the group keys are exactly the distinct cells of the column, NaN included |
| Processor.Clean | processor.py:19-28 | the reference substitution turns each forbidden character into "_" and keeps every other character in place |
| Processor.ReplaceChainIsClean | processor.py:19-28 | the chain of nine replace calls is that one-pass substitution |
| Processor.SanitizeIsStripClean | processor.py:16-30 | a sanitized name is the substituted name with whitespace stripped from both ends |
| Processor.StripKeepsSafe | processor.py:29 | stripping cannot bring back a forbidden character |
| Processor.SanitizeClean | processor.py:16-30 | a sanitized name holds no `/ \ : * ? " < > \|` |
| Processor.SanitizeIdempotent | processor.py:16-30 | sanitizing twice is sanitizing once |
| Processor.SplitErrors | processor.py:59-74 | errors come in order: a missing input file, then a missing consigner column (only when filtering), then a missing booker column; no error writes anything |
| Processor.RemainingFacts | processor.py:67-78 | the remaining rows are the input rows, in order and with their multiplicity, that carry the consigner value when one is given and do not carry the excluded booker when one is given |
| Processor.PlannedIff | processor.py:86-98 | the files planned are exactly those of the group keys that are not skipped |
| Processor.PlannedNames | processor.py:86-98 | a name is planned exactly when it is the non-blank name of a booker cell |
| Processor.SplitExcelByBooker | processor.py:33-101 | the method's outputs and files are the split's specification |
| Processor.WriteGroupFiles | processor.py:84-101 | the group loop writes the planned files in key order and records each name's path |
| Processor.SplitOutputs | processor.py:84-101 | the outputs map exactly the distinct non-blank booker names to output_dir / template(sanitized name) |
| Processor.SplitGroupFile | processor.py:86-97 | a group's file holds the configured sheet, the input's columns, and exactly the group's rows in their order and with their multiplicity |
| Processor.SplitOtherFiles | processor.py:84-101 | a file at a path no output name leads to is left untouched |
| Processor.SplitExcluded | processor.py:76-78 | the excluded booker gets no output, unless a numeric cell spells the same name |
| Exporter.MissingKey | exporter.py:33 | a dedup key is reported missing exactly when it is not a column |
| Exporter.RecordRowAt | exporter.py:25 | a record's row holds the record's keys, each with the value given last for it |
| Exporter.AllKeysAt | exporter.py:25 | the frame's keys are exactly the keys of some record |
| Exporter.FrameCells | exporter.py:25 | `pd.DataFrame(records)` has a column for every key of any record; row i holds record i's values and NaN elsewhere |
| Exporter.UnionFacts | exporter.py:29 | concat's column union holds every column of either frame, each once |
| Exporter.ExportOneErrors | exporter.py:27-33 | a direction fails with ValueError exactly when its file lacks the sheet, and otherwise with KeyError exactly when a dedup key is in neither the file's columns nor any record |
| Exporter.ExportOneWrites | exporter.py:24-34 | a direction writes the configured sheet: the existing rows then the new ones, deduplicated keep-first by key, keeping every key once |
| Exporter.DropSettles | exporter.py:33 | drop_duplicates leaves a sheet without repeated keys |
| Exporter.ExistingRowsWin | exporter.py:29-33 | on a duplicate key the existing file's row wins over the new record |
| Exporter.MergeFixpoint | exporter.py:29-33 | merging records whose keys and columns a settled sheet already has gives the sheet back |
| Exporter.MergeDirection | exporter.py:22-33 | the loop body for one direction computes that direction's specification |
| Exporter.ExportByDirection | exporter.py:11-38 | the method's outputs and files are the export's specification |
| Exporter.ErrorEndsRun | exporter.py:21-35 | once a direction raises, the later ones change nothing |
| Exporter.OkStep | exporter.py:21-35 | a successful run adds a direction to the outputs exactly when it has records |
| Exporter.ExportOutputs | exporter.py:21-35 | the outputs map exactly the directions with records, each to its target path |
| Exporter.ExportUntouched | exporter.py:21-34 | a file at a path no direction with records leads to is left as it was |
| Exporter.RunSettles | exporter.py:21-34 | after a successful run every direction's file is settled and holds its records' keys |
| Exporter.SettledRunIsIdle | exporter.py:21-35 | on settled files a run raises nothing and changes nothing |
| Exporter.ExportIdempotent | exporter.py:11-38 | running the export again with the same records returns the same outputs and leaves every file as the first run wrote it |

## Left out

- Network, sessions and timeouts: the server is an oracle; the `timeout` arguments are not modelled.
- Sleeps: they are recorded as a list of seconds, not performed. `sleep_between_pages` is a float and is recorded only as a `BetweenPages` step.
- Floating point: `math.ceil(total / page_size)` is computed exactly on integers. Float cells and JSON floats are not modelled.
- `int()` accepts underscores between digits; `Text.ParseInt` does not.
- Login.IsWordChar: `\w` is restricted to ASCII letters, digits and "_", where Python's str patterns accept all Unicode word characters.
- OCR, base64 decoding, MD5 and `str()` of a value are parameters (`Login.Services`). Their behaviour is not modelled.
- Captcha `save_path`: writing the captcha image to disk and its `mkdir` are not modelled, because nothing downstream reads the file.
- Download file-system errors: `mkdir` and the file write always succeed in the model. A failing write would be retried like a failed request.
- Directory creation in processor.py and exporter.py: it is not modelled, and paths are plain strings.
- Logging: it has no effect on results and is not modelled.
- The process environment is a map passed in and returned. `os.environ` is not shared with other code.
- Login.LoginAndRefreshAuth: the list and export header sections are two distinct `Headers` objects. Aliasing between them is excluded by precondition.
- Processor.SplitExcelByBooker: groups are visited in order of first appearance, where pandas sorts the group keys. The outputs map is the same either way, and the files written differ only when two names sanitize to the same path.
- Processor.SplitGroupFile: it is stated only for a group whose path no other group's name leads to, since a later group would overwrite it.
- Excel reading and writing: a workbook is one named sheet of columns and rows. Formats, dtypes, the index and multi-sheet files are not modelled.
- The configs are typed records: a missing config key of exporter.py (a KeyError in the source) cannot be expressed. `sheet_name` takes its "data" default before the call.
- Exporter.DropDuplicates: with an empty dedup_keys list every row shares the empty key, so only the first row is kept. pandas' own behaviour there depends on its version.
- Utils.GetNestedValue and Login.ExtractJsonPath: a stored None is returned as the JSON null value, which Python shows as the same None as a missing path.
- File-name templates: `template.format(direction=...)` (exporter.py:24) and `output_template.format(actual_booker=...)` (processor.py:94) are modelled on templates already split into literal text and holes for the one named field (`Text.Piece`). `str.format` errors, brace escapes and format specs are not modelled.
- Exporter.ExportIdempotent and Exporter.SettledRunIsIdle: they assume a file reads back exactly as it was written. `pd.read_excel` turns empty strings and NA-like text into NaN, so a second run can see different cells.
- mailer.py, main.py and config loading are not part of this model.
