# KeyWordGenerator core, modelled in Dafny

This project models the logic of the keyword generator: a web app that turns a blog post into categorized keyword suggestions. It covers six pieces:

- resolving country names to Google Ads geo target constants through a cache (`src/geo_targets.py`);
- building and checking the keyword-ideas request, reading its results and wording its errors (`src/google_ads_client.py`);
- exporting ideas as CSV rows and picking the top ideas by volume (`src/csv_export.py`);
- recovering a JSON object from the language model's reply in up to three parse attempts (`src/openai_client.py`);
- rewriting the `.env` file after an OAuth refresh token is obtained (`get_refresh_token.py`);
- the setup script's checks: which variables are set, how their values are masked, and when the connection tests run (`test_setup.py`).

Every external system is a parameter of the model. These are the geo suggestion service, the keyword-ideas service, the language model, `json.loads`, `urlparse`, the process environment and the import machinery. None of them is modelled. The properties below hold for whatever these parameters answer, as long as each one answers the same input the same way throughout a call.

Modules, one per file:

| file | module | models |
|---|---|---|
| `wrappers.dfy` | `Wrappers` | `Option` and `Result` |
| `text.dfy` | `Text` | the Python string operations the code relies on |
| `keywords.dfy` | `Keywords` | the keyword-idea dictionary shared by the Ads client and the CSV export |
| `geo_targets.dfy` | `GeoTargets` | the resolver, as a class whose cache and query log change in place |
| `ads_client.dfy` | `AdsClient` | client config, the request checks, result extraction, error messages |
| `csv_export.dfy` | `CsvExport` | CSV rows and the stable top-K selection |
| `response_salvage.dfy` | `ResponseSalvage` | the input guards, the user message and the three-stage JSON salvage |
| `env_update.dfy` | `EnvUpdate` | the `.env` rewrite |
| `setup_check.dfy` | `SetupCheck` | masking, the all-set flag and the early exit |

Behaviour of the code worth noting:

- `resolve_countries` does not remove duplicates. A name that occurs twice contributes its resource name twice (`GeoTargets.BatchTargetsAreAnswers`).
- A name repeated in one batch is sent to the service once only if it resolves. Failures are not cached, so a failing name is queried at every occurrence (`GeoTargets.BatchQueryCount`).
- The final error record carries the *second* parse's error (`e2`), not the third one's (`ResponseSalvage.RepairParsedOnce`).

## Model

| member | source | states |
|---|---|---|
| Text.Strip | src/openai_client.py:156 | `str.strip()`: the result has no whitespace at either end, and it is empty exactly when the input is all whitespace |
| Text.Without | src/google_ads_client.py:95 | the result holds no `a` and exactly the other characters of the text; text without `a` is unchanged |
| Text.WithoutAppend | src/google_ads_client.py:95 | removal goes character by character in order: removing from a concatenation gives the parts with the character removed, in turn |
| Text.WithoutOne | src/google_ads_client.py:95 | a single character is dropped exactly when it is the removed one and kept as itself otherwise |
| Text.ReplaceDeletesChar | src/google_ads_client.py:95 | `replace("-", "")` is the removal of every dash |
| Text.ReplaceChar | src/openai_client.py:176 | a one-character `replace` acts position by position and keeps the length |
| Text.ReplaceKeepsCount | src/openai_client.py:176-183 | a character in neither the pattern nor the replacement keeps its count through `replace` |
| Text.ReplaceAbsent | src/openai_client.py:176-179 | replacing a pattern that does not occur changes nothing |
| Text.SplitLines | get_refresh_token.py:197 | `split("\n")` gives at least one piece, and no piece holds a newline |
| Text.JoinSplit | get_refresh_token.py:197-204 | joining the pieces of a split with `"\n"` gives the text back |
| Text.SplitJoin | get_refresh_token.py:197-204 | splitting joined newline-free lines gives the lines back |
| Text.Lower | get_refresh_token.py:183 | `lower()` maps each character to its lower-case form and keeps the length |
| Text.NatToDecimal | src/csv_export.py:47 | the decimal text of a number is all digits, with no leading zero |
| Text.DecimalRoundTrip | src/csv_export.py:47 | reading back the decimal text of a number gives the number |
| Text.IntToDecimal | src/csv_export.py:47 | the text of a negative number is a minus sign followed by the digits of its magnitude |
| Text.ContainsInside | get_refresh_token.py:212-215 | an occurrence of a substring stays one after text is added on either side |
| Text.ContainsAcross | get_refresh_token.py:212-215 | an occurrence of a pattern that lacks `c` lies wholly on one side of a `c` |
| GeoTargets.LoadCache | src/geo_targets.py:15-23 | a stored cache loads as itself; a missing or unreadable file, or one that is not JSON, loads as the empty map; a file that is not UTF-8 raises |
| GeoTargets.SaveCache | src/geo_targets.py:26-32 | after a full write the file loads as the saved cache; a refused `open` leaves the file as it was; a write that fails after `open` has emptied the file leaves one that loads as the empty map |
| GeoTargets.FirstOfType | src/geo_targets.py:60-85 | finds the first suggestion whose type name contains the tag, or reports that none does |
| GeoTargets.ChosenIndexIsChoice | src/geo_targets.py:58-93 | the chosen suggestion is the first COUNTRY, else the first PROVINCE, else the first suggestion, and there is none only for an empty list |
| GeoTargets.FirstIsUnique | src/geo_targets.py:60-85 | the first suggestion of a type is unique |
| GeoTargets.PickSuggestion | src/geo_targets.py:58-97 | the two scans and the fallback return exactly the policy's choice |
| GeoTargets.Resolver.constructor | src/geo_targets.py:115 | a resolver starts with the loaded cache and no queries |
| GeoTargets.Resolver.ResolveCountry | src/geo_targets.py:43-105 | a cached name answers from the cache without a query; otherwise the service is asked once and a resolved name is cached; failures give None and change no entry |
| GeoTargets.ResolveCountries | src/geo_targets.py:108-126 | load the cache, resolve every name in order, keep the non-empty results, save once; the result equals the batch specification; a cache file that raises on load ends the call with no query and no save |
| GeoTargets.ResolveBatch | src/geo_targets.py:116-121 | one resolver over the loaded cache resolves the names in order; the kept names, final cache and queries are exactly the batch specification |
| GeoTargets.BatchTargetsBound | src/geo_targets.py:116-126 | a batch returns no more targets than names |
| GeoTargets.BatchTargetsAreAnswers | src/geo_targets.py:116-126 | when the cache agrees with the service, the result is the in-order sequence of per-name answers with nothing de-duplicated |
| GeoTargets.BatchFinalCache | src/geo_targets.py:108-126 | the saved cache is the old cache plus exactly the names that resolved afresh |
| GeoTargets.BatchQueryCount | src/geo_targets.py:108-126 | a cached name is never queried; a name that resolves is queried once; a failing name is queried at every occurrence |
| GeoTargets.UnresolvedNameDropped | src/geo_targets.py:95-97 | a name with no suggestions is dropped and never cached, while a cached name still answers |
| AdsClient.BuildClientConfig | src/google_ads_client.py:11-29 | the four credentials come from the environment; the login id is set exactly when its dash-free form is ten digits |
| AdsClient.LoginIdHasNoDash | src/google_ads_client.py:21-27 | an accepted login id has no dash, is ten characters, and came from at least ten characters |
| AdsClient.WithoutShorter | src/google_ads_client.py:25 | removing dashes never lengthens the id |
| AdsClient.DropBlank | src/google_ads_client.py:65 | the filter keeps only present, non-blank entries |
| AdsClient.DropBlankMembers | src/google_ads_client.py:65 | a text survives the filter exactly when it is present in the input and not blank |
| AdsClient.DropBlankAppend | src/google_ads_client.py:65 | the filter works entry by entry in order: filtering a concatenation gives the filtered parts in turn |
| AdsClient.DropBlankOne | src/google_ads_client.py:65 | a single entry survives as its text exactly when it is present and not blank |
| AdsClient.Dedupe | src/google_ads_client.py:70 | `dict.fromkeys` yields distinct entries with the same members as the input |
| AdsClient.DedupeKeepsFirstOrder | src/google_ads_client.py:70 | the de-duplicated entries appear in the order of their first occurrences |
| AdsClient.DedupeDistinct | src/google_ads_client.py:70 | a list with no repeats is left as it is |
| AdsClient.Validated | src/google_ads_client.py:72-80 | every kept target is a stripped `geoTargetConstants/` name longer than 20 characters |
| AdsClient.ValidatedKeeps | src/google_ads_client.py:74-77 | every entry whose stripped form is well formed is kept |
| AdsClient.ValidatedSource | src/google_ads_client.py:74-77 | every kept target is the stripped form of some input entry |
| AdsClient.ValidatedAppend | src/google_ads_client.py:73-80 | the check works entry by entry in order: validating a concatenation gives the validated parts in turn |
| AdsClient.ValidatedOne | src/google_ads_client.py:74-77 | a single entry survives as its stripped form exactly when that form is well formed |
| AdsClient.ValidateGeoTargets | src/google_ads_client.py:73-80 | the loop computes the validated list |
| AdsClient.Capped | src/google_ads_client.py:84-88 | at most ten targets are kept, and they are the first ones |
| AdsClient.CappedShape | src/google_ads_client.py:84-88 | capping a non-empty list of well-formed targets keeps one to ten of them, from the front |
| AdsClient.OneDigitIdRejected | src/google_ads_client.py:76 | a target with a one-digit id fails the length check |
| AdsClient.WhitespaceVariantsSurvive | src/google_ads_client.py:65-77 | de-duplication runs before stripping, so a target and the same target with a trailing blank are both sent |
| AdsClient.TrimLeadingSlashes | src/google_ads_client.py:111 | only leading slashes are removed |
| AdsClient.TrimTrailingSlashes | src/google_ads_client.py:111 | only trailing slashes are removed |
| AdsClient.StripSlashes | src/google_ads_client.py:111 | `strip("/")` leaves no slash at either end, and is empty exactly for an all-slash path |
| AdsClient.SiteDomain | src/google_ads_client.py:110-115 | the domain is the network location when there is one; it is empty only when the path is all slashes |
| AdsClient.CleanDomainDropsOneWww | src/google_ads_client.py:117-122 | a single `www.` prefix is dropped |
| AdsClient.EnsureScheme | src/google_ads_client.py:124-126 | the seed URL always has a scheme; a URL with one is unchanged, and any other URL gets `https://` |
| AdsClient.EnsureSchemeIdempotent | src/google_ads_client.py:124-132 | the second scheme check changes nothing |
| AdsClient.ToIdeaDefaults | src/google_ads_client.py:156-177 | missing or zero metrics become 0, "UNKNOWN" or None; a breakdown is present exactly when the service gave monthly volumes |
| AdsClient.IdeasFrom | src/google_ads_client.py:150-182 | the results are the first `max_results` response items, each converted |
| AdsClient.ExtractResults | src/google_ads_client.py:150-182 | the counting loop with `break` computes those results |
| AdsClient.GuidanceFor | src/google_ads_client.py:211-256 | invalid-argument advice for that code or for details mentioning an invalid value, otherwise permission advice for that code, otherwise none, also for a failure with any other code |
| AdsClient.Headline | src/google_ads_client.py:184-209 | every message starts with "Google Ads API error" |
| AdsClient.HeadlineMentions | src/google_ads_client.py:185-209 | the message names the exception text when there is no failure, starts with the code when it is set, and ends with the details when they are set |
| AdsClient.DescribeAdsException | src/google_ads_client.py:184-258 | the message is assembled step by step as the headline followed by the guidance |
| AdsClient.Rejected | src/google_ads_client.py:259-262 | any other failure gives the error prefix followed by its own text |
| AdsClient.RequestForAccepts | src/google_ads_client.py:57-115 | a request goes out exactly when there is a customer id, some geo target survives the filters, and the URL yields a domain |
| AdsClient.RequestForShape | src/google_ads_client.py:94-132 | a request that goes out has the customer id with every dash removed, the first ten (or all, if fewer) well-formed targets of the filtered list in order, and a URL seed with a scheme |
| AdsClient.PrepareRequest | src/google_ads_client.py:57-144 | the checks in source order build exactly the specified request or rejection |
| AdsClient.GenerateKeywordIdeas | src/google_ads_client.py:56-262 | every failure starts with the error prefix; a request is sent exactly when the checks pass; each service reply maps to the results, the Ads message or the generic message |
| CsvExport.FlattenRow | src/csv_export.py:39-46 | one idea becomes exactly six cells |
| CsvExport.FlattenRowReadsBack | src/csv_export.py:39-46 | the cells read back as the keyword (or ""), the volume (or 0), the competition (or "UNKNOWN"), and the three optional numbers, which are empty when missing or zero |
| CsvExport.FlattenRowIgnoresBreakdown | src/csv_export.py:34 | the monthly breakdown never reaches the CSV |
| CsvExport.KeywordIdeasToCsv | src/csv_export.py:20-49 | no ideas give no rows; otherwise the header row comes first, then one flattened row per idea, in order |
| CsvExport.InsertSorted | src/csv_export.py:65-69 | inserting a position keeps an order sorted by descending volume, with ties in input order |
| CsvExport.InsertMultiset | src/csv_export.py:65-69 | insertion adds exactly the inserted position |
| CsvExport.SortedPositions | src/csv_export.py:65-69 | the positions of a prefix, ordered by descending volume with ties in input order |
| CsvExport.SortedPositionsPermute | src/csv_export.py:65-69 | the sorted ideas are a permutation of the input |
| CsvExport.StableOrder | src/csv_export.py:65-69 | `sorted(..., reverse=True)` is a stable descending order and a permutation |
| CsvExport.SortedOrderUnique | src/csv_export.py:65-69 | there is only one stable descending order, so the model pins down Python's |
| CsvExport.SliceLength | src/csv_export.py:70 | `[:top_k]` keeps `top_k` items, all items when `top_k` is larger, and drops from the end when `top_k` is negative |
| CsvExport.TopKeywordsByVolume | src/csv_export.py:65-70 | the result is non-increasing in volume, is a prefix of the stable order, has the slice's length, and is a sub-multiset of the input |
| ResponseSalvage.UserMessage | src/openai_client.py:45-51 | the message is the blog heading, the blog, the CSV heading, the CSV and the instruction, in that order |
| ResponseSalvage.IndexOf | src/openai_client.py:159 | `find("{")`: the first position of the character, or none when it is absent |
| ResponseSalvage.LastIndexOf | src/openai_client.py:160 | `rfind("}")`: the last position of the character, or none when it is absent |
| ResponseSalvage.BraceSpan | src/openai_client.py:158-165 | the candidate is the whole text or a `{...}` span no longer than it |
| ResponseSalvage.BraceSpanRule | src/openai_client.py:159-165 | from the first `{` to the last `}` when that `}` comes later, otherwise the whole text |
| ResponseSalvage.BraceSpanWithoutBraces | src/openai_client.py:162-165 | text missing either brace is parsed as it is |
| ResponseSalvage.BraceSpanIdempotent | src/openai_client.py:158-165 | taking the span twice changes nothing |
| ResponseSalvage.SubstituteKeepsBraces | src/openai_client.py:175-183 | the four replacements do not change the brace counts |
| ResponseSalvage.ReplacesKeepCount | src/openai_client.py:176-179 | four replacements in a row keep the count of any character that none of their patterns or texts contains |
| ResponseSalvage.SubstituteRemovesQuotes | src/openai_client.py:176 | every single quote becomes a double quote, and none is left |
| ResponseSalvage.Repair | src/openai_client.py:173-186 | the rewrites and the padding compute the repaired text |
| ResponseSalvage.SubstituteAbsent | src/openai_client.py:175-179 | text with no quote, `None`, `True` or `False` is not changed |
| ResponseSalvage.Repeat | src/openai_client.py:186 | `"}" * n` is n closing braces and nothing else |
| ResponseSalvage.Pad | src/openai_client.py:181-186 | closing braces are appended only when openers outnumber closers, and then exactly enough to balance |
| ResponseSalvage.PadIdempotent | src/openai_client.py:181-186 | padding twice changes nothing |
| ResponseSalvage.Repaired | src/openai_client.py:173-186 | the repaired text keeps the openers, has at least as many closers, and has no single quote |
| ResponseSalvage.ExtractedFrom | src/openai_client.py:199-206 | once started, lines are kept up to and including the first line that closes the count with a `}`, or to the end |
| ResponseSalvage.ExtractedSkip | src/openai_client.py:199-202 | lines before the first line with a `{` are skipped |
| ResponseSalvage.ExtractedRun | src/openai_client.py:194-208 | the kept lines are one contiguous run from the first `{` line to the first closing line |
| ResponseSalvage.ExtractObjectLines | src/openai_client.py:194-207 | the brace-counting loop with `break` keeps exactly that run |
| ResponseSalvage.Preview | src/openai_client.py:215 | the preview is the first 300 characters, or the whole text when shorter |
| ResponseSalvage.FailureMessage | src/openai_client.py:212-216 | the error starts with the parse-failure prefix and the error, and ends with the preview and "..." |
| ResponseSalvage.Stages | src/openai_client.py:168-210 | the three texts handed to the parser: the span, its repair, and the extracted object lines |
| ResponseSalvage.StagedRunUnique | src/openai_client.py:168-216 | the attempts and the outcome are determined by the reply and the parser |
| ResponseSalvage.FirstParseWins | src/openai_client.py:168-170 | when the span parses, that is the only attempt and its value is returned |
| ResponseSalvage.RepairParsedOnce | src/openai_client.py:188-216 | after a first failure the repaired text is parsed next; an error record comes only after three failures and quotes the second failure |
| ResponseSalvage.RunStopsAt | src/openai_client.py:168-216 | the run stops at the first stage that parses |
| ResponseSalvage.SalvageReply | src/openai_client.py:156-216 | strip, take the span, parse, and fall back to the repair stages |
| ResponseSalvage.Reattempt | src/openai_client.py:171-216 | the second and third attempts and the final error record follow the staged run |
| ResponseSalvage.Categorize | src/openai_client.py:37-221 | blank inputs give the missing-input error without a call; a failed call gives the call error; otherwise the reply is salvaged |
| EnvUpdate.ShouldSaveIff | get_refresh_token.py:183-185 | the token is saved exactly when the stripped answer is "y" or "Y" |
| EnvUpdate.UpdateEnvContent | get_refresh_token.py:194-215 | the line loop, the append and the two prepends compute the specified content |
| EnvUpdate.SaveRefreshToken | get_refresh_token.py:183-219 | the file is written exactly when the answer says yes, with the updated content, and a missing file reads as empty |
| EnvUpdate.RewriteKeepsOtherLines | get_refresh_token.py:195-204 | with the key present, the line count is kept, every line starting with the key becomes the token line, and every other line is unchanged |
| EnvUpdate.MidLineKeyKeepsContent | get_refresh_token.py:195-204 | a key that starts no line (commented or indented) leaves the content unchanged, and no token line is written |
| EnvUpdate.AppendKeepsContent | get_refresh_token.py:205-209 | without the key, the old content is a prefix of the new content and the token line ends it on a line of its own: a newline is added first exactly when the content is non-empty and its last line is open, and nothing else is added |
| EnvUpdate.AppendAfterClosed | get_refresh_token.py:207-209 | closing the last line before appending keeps the old content in front |
| EnvUpdate.SettingContainsKey | get_refresh_token.py:212-215 | a prepended setting line contains its key |
| EnvUpdate.UpdatedHasCredentials | get_refresh_token.py:211-215 | the written content always contains both the client id key and the secret key |
| EnvUpdate.ClientLineWithoutSecret | get_refresh_token.py:213-214 | the client id line contains the secret key only if the id itself does |
| EnvUpdate.TwoLinesInFront | get_refresh_token.py:212-215 | two prepended newline-free lines become the first two lines |
| EnvUpdate.SecretLineComesFirst | get_refresh_token.py:211-215 | when both credentials are added, the secret line comes first, then the client id line, then the old lines |
| SetupCheck.RequiredVars | test_setup.py:14-21 | the six required variables, in order |
| SetupCheck.Mask | test_setup.py:34 | a value longer than 12 shows its first eight characters, "..." and its last four (15 in all); shorter values show "***" |
| SetupCheck.MaskOnlyEnds | test_setup.py:34 | two long values mask alike exactly when their first eight and last four characters agree |
| SetupCheck.MaskShortAlike | test_setup.py:34 | all values of at most 12 characters mask alike, so not even their length is shown |
| SetupCheck.CheckEnvVars | test_setup.py:10-43 | `all_set` holds exactly when every required variable is set and non-empty; one status line per variable |
| SetupCheck.CheckVars | test_setup.py:28-40 | the loop over the variables computes the flag and the status lines |
| SetupCheck.CheckDependencies | test_setup.py:46-71 | `all_installed` holds exactly when every required package imports |
| SetupCheck.RunChecks | test_setup.py:116-155 | the connection tests run only when the environment and the dependencies are complete; all checks pass only when both connections succeed |
| SetupCheck.OnlyIdsShown | test_setup.py:14-37 | of the six variables only the client id and the customer id are shown verbatim |
| SetupCheck.SensitiveSuffix | test_setup.py:33 | a name ending in TOKEN, SECRET or KEY is sensitive |
| SetupCheck.ClientIdNotSensitive | test_setup.py:17 | `GOOGLE_ADS_CLIENT_ID` is not sensitive |
| SetupCheck.CustomerIdNotSensitive | test_setup.py:20 | `GOOGLE_ADS_CUSTOMER_ID` is not sensitive |

## Left out

- Network and SDK calls are parameters and are not modelled. This covers the OpenAI and Google Ads clients, `client.get_service`, and the request objects' attribute setting.
- The `urlparse` and `json.loads` internals are parameters. A parse result is only "parsed" or "error with a message". `urlparse` is total in the model: the `ValueError` it can raise on a malformed URL such as `http://[::1` (src/google_ads_client.py:110), which the handler at src/google_ads_client.py:259-262 turns into a "Google Ads API error" message, is not represented.
- The language-model call is a parameter that returns either the reply text or an exception message. The introspection of the response object that finds that text (src/openai_client.py:56-152) is not modelled.
- Exceptions other than `JSONDecodeError` raised inside the salvage stages are not modelled. In the source they fall through to the outer `except`.
- File I/O is a parameter: the cache file, the `.env` read and write, and how a write ends. Printing and `sys.exit` are left out.
- The OAuth flow of `get_refresh_token.py` (local HTTP server, threads, polling timeout, token exchange) is not modelled. The token, client id and secret enter as parameters.
- The CSV writer's quoting, escaping and `\r\n` terminators are not modelled. Rows are the cell texts handed to `csv.DictWriter`.
- Text.Lower: ASCII only; `str.lower()` also maps non-ASCII letters.
- Text.IsDigits: ASCII only; `str.isdigit()` also accepts other Unicode digits.
- AdsClient.GuidanceFor: only the heading line of each advice block is reproduced; the numbered advice under it is not.
- AdsClient.GenerateKeywordIdeas: the `site_seed` fallback and the `AttributeError` paths (src/google_ads_client.py:134-144) are not modelled, because setting `url_seed` is assumed to succeed.
- AdsClient.GenerateKeywordIdeas: a missing customer id is modelled as the empty string, and a non-string geo entry as a missing one.
- AdsClient.ToIdeaDefaults: the `hasattr` checks on each monthly volume are not modelled; every volume is taken to have a year, a month and a count.
- SetupCheck.RunChecks: the two connection tests enter as booleans, because creating the clients is not modelled.
- GeoTargets.LoadCache: a file holding JSON other than an object of strings is not represented. For a list, a string, a number or `null` as the whole file, a later lookup or store fails or raises (src/geo_targets.py:43-44, 70). For an object with non-string values, the lookup at src/geo_targets.py:43-44 returns the value as it is, and src/geo_targets.py:120-121 keeps it among the targets when it is truthy (`123`) and drops it silently when it is not (`null`, `0`).
- GeoTargets.ResolveCountries: the suggestion service answers each name the same way throughout a batch. A transient error at one occurrence of a name followed by success at a later one is not represented.
- GeoTargets.Resolver.ResolveCountry: the service's answer is a list of suggestions or an error. The `isinstance` and `hasattr` handling of the target type is reduced to the type's name.
