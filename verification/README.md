# Domain checker — a Dafny model

A Spring web application checks domain names and stores one `DomainResult` row per check. Each check runs these steps for the host:

- a DNS-style reachability probe;
- an HTTP status probe that falls back from `http://` to `https://`;
- a curl-style timing probe that falls back from `https://` to `http://`;
- a VirusTotal reputation lookup and its per-engine details;
- a headless-browser render.

`DomainController` provides:

- a single-domain form and a bulk form (one domain per line);
- a JSON endpoint;
- a filtered, paginated result list with statistics and a query string for the export links.

This project models the following as pure Dafny functions over immutable data, and proves properties of them:

- `DomainCheckerService`: host normalisation, the probes, the orchestration in `checkDomain`, and the persisted result.
- `DomainController`: the form and API handlers, the bulk loop, the filters, the date parsing, the pagination, the statistics and the query builder.
- `DomainResult`: the entity.

Effects appear in two ways. Each probe's answer comes from a `World` value that the caller chooses. Each operation returns the outbound calls it would make, as a trace of `Call`s next to its value (`Probed<T>`).

Modules:

- `Lang`: Java semantics — null, exceptions, 32-bit `int` wrap-around, truncating division, decimal rendering of integers.
- `Strings`: `trim`, `isBlank`, ASCII `toLowerCase`, `contains`, `indexOf`, `replace`, `split("\\r?\\n")`, joining.
- `Entity`: `DomainResult`, its getters and setters, its constructors and `@PrePersist`.
- `Normalizer`: `cleanDomainName`.
- `Probes`: the five probes.
- `Service`: `checkDomain` and the persistence step.
- `Filters`: the list filters and date handling.
- `Controller`: the handlers, the bulk loop, pagination, statistics, the query string and the list view.

The controller does not use the service directly. It takes a `Checker`: a function from the trimmed domain to a traced result. `Controller.ServiceFor(config, world)` is the model's `checkDomain`, and several lemmas below tie the handlers to it.

A canonical host would be expected to normalise to itself, but `cleanDomainName` is not idempotent: stripping a scheme can expose white space that the first `trim` never saw. The model follows the code. `Normalizer.CleanNotIdempotent` shows the difference, and `Normalizer.CleanIdempotentIff` states exactly when idempotence holds.

## Model

| member | source | states |
|---|---|---|
| Lang.WrapInt | src/main/java/com/example/domainchecker/controller/DomainController.java:100-101 | the result is a Java `int` congruent to the exact value modulo 2^32, and equal to it when it is in range |
| Lang.JavaDiv | src/main/java/com/example/domainchecker/service/DomainCheckerService.java:232 | division of elapsed nanoseconds truncates toward zero: the magnitude is the magnitude quotient and the sign follows the dividend |
| Lang.IntToString | src/main/java/com/example/domainchecker/service/DomainCheckerService.java:91 | the decimal rendering is non-empty; it is all digits exactly for non-negative values, and starts with `-` exactly for negative ones |
| Lang.IntToStringRoundTrip | src/main/java/com/example/domainchecker/service/DomainCheckerService.java:91 | a rendered integer reads back as the same integer, so distinct codes and timings render distinctly |
| Strings.TrimStart | src/main/java/com/example/domainchecker/service/DomainCheckerService.java:199 | the result is a suffix of the input; every dropped character is at most U+0020 and the first kept one is not |
| Strings.TrimEnd | src/main/java/com/example/domainchecker/service/DomainCheckerService.java:199 | the result is a prefix of the input; every dropped character is at most U+0020 and the last kept one is not |
| Strings.Trim | src/main/java/com/example/domainchecker/service/DomainCheckerService.java:199 | the result is the contiguous part of the input left after dropping every leading and every trailing character at most U+0020; it neither starts nor ends with such a character, and every dropped character is one |
| Strings.TrimFixedPoint | src/main/java/com/example/domainchecker/controller/DomainController.java:59-65 | trimming changes a string exactly when it starts or ends with a trimmable character, and trimming twice equals trimming once |
| Strings.BlankIsNotTrimEmpty | src/main/java/com/example/domainchecker/controller/DomainController.java:352 | `isBlank` and `trim().isEmpty()` disagree: an ideographic space is blank but survives `trim`, and NUL is trimmed but not blank |
| Strings.ToLower | src/main/java/com/example/domainchecker/service/DomainCheckerService.java:199 | lower-casing keeps the length, leaves no upper-case ASCII letter, changes each upper-case letter by +32 and keeps every other character |
| Strings.LowerOfLower | src/main/java/com/example/domainchecker/service/DomainCheckerService.java:199 | lower-casing a string without upper-case letters changes nothing |
| Strings.IndexOf | src/main/java/com/example/domainchecker/service/DomainCheckerService.java:202 | the result is -1 exactly when the character is absent, and otherwise the position of its first occurrence |
| Strings.RemoveAll | src/main/java/com/example/domainchecker/controller/DomainController.java:201 | `replace` with an empty replacement leaves no occurrence of the character, keeps the count of every other character, and shortens the text by exactly the number of occurrences |
| Strings.RemoveAllConcat | src/main/java/com/example/domainchecker/controller/DomainController.java:201 | removing a character from a concatenation removes it from each part |
| Strings.RemoveAllOne | src/main/java/com/example/domainchecker/controller/DomainController.java:201 | removing a character from a one-character string removes it exactly when it is that character |
| Strings.Utf16Length | src/main/java/com/example/domainchecker/service/DomainCheckerService.java:236 | Java's `length()`: every character counts once and every character above U+FFFF counts twice, so the length lies between the character count and twice that, and equals the character count exactly when no character is above U+FFFF |
| Strings.SplitLines | src/main/java/com/example/domainchecker/controller/DomainController.java:196 | no piece contains a line feed; a text without a line feed is one piece; otherwise trailing empty pieces are dropped |
| Strings.DropTrailingEmpty | src/main/java/com/example/domainchecker/controller/DomainController.java:196 | the result is the longest prefix not ending in an empty piece, and only empty pieces are dropped |
| Strings.LinePiecesCount | src/main/java/com/example/domainchecker/controller/DomainController.java:196 | a text splits into one more piece than it has line feeds |
| Strings.LinePiecesJoin | src/main/java/com/example/domainchecker/controller/DomainController.java:196 | for a text without carriage returns, joining the pieces with line feeds gives back the text |
| Strings.JoinSnoc | src/main/java/com/example/domainchecker/controller/DomainController.java:415-417 | appending a piece to a joined list adds one separator and the piece |
| Entity.Get | src/main/java/com/example/domainchecker/entity/DomainResult.java:67-104 | each getter returns a value of its property's declared Java type |
| Entity.GettersDetermineRecord | src/main/java/com/example/domainchecker/entity/DomainResult.java:10-49 | two results whose getters all agree are the same result |
| Entity.Set | src/main/java/com/example/domainchecker/entity/DomainResult.java:67-104 | a setter makes its getter return the new value and leaves every other property unchanged |
| Entity.SetTwice | src/main/java/com/example/domainchecker/entity/DomainResult.java:67-104 | a second call to the same setter overrides the first |
| Entity.SetCommutes | src/main/java/com/example/domainchecker/entity/DomainResult.java:67-104 | setters of different properties can run in either order |
| Entity.SetOwnValue | src/main/java/com/example/domainchecker/entity/DomainResult.java:67-104 | setting a property to its current value changes nothing |
| Entity.Empty | src/main/java/com/example/domainchecker/entity/DomainResult.java:58 | the no-argument constructor leaves every property null |
| Entity.Create | src/main/java/com/example/domainchecker/entity/DomainResult.java:60-65 | the four-argument constructor sets domain, reachable, status and verdict to its arguments, and every other property is null |
| Entity.OnCreate | src/main/java/com/example/domainchecker/entity/DomainResult.java:51-56 | the timestamp is set to now exactly when it was null; no other property changes |
| Entity.OnCreateIdempotent | src/main/java/com/example/domainchecker/entity/DomainResult.java:51-56 | after the hook the timestamp is set, and running the hook again at any later time changes nothing |
| Normalizer.Clean | src/main/java/com/example/domainchecker/service/DomainCheckerService.java:197-205 | a cleaned host contains no `/` and no upper-case letter, and is never longer than the input |
| Normalizer.StripSchemes | src/main/java/com/example/domainchecker/service/DomainCheckerService.java:200-201 | the result is a suffix of the input: the input itself when it starts with neither scheme, the rest after `https://` when it starts with that, the rest after `http://` when it starts with `http://` and no `https://` follows, and the rest after both when `http://https://` opens it |
| Normalizer.CutAtSlash | src/main/java/com/example/domainchecker/service/DomainCheckerService.java:202-203 | the result is the longest prefix without `/`, and the input continues with `/` where the result stops |
| Normalizer.CleanDomainName | src/main/java/com/example/domainchecker/service/DomainCheckerService.java:197-205 | null maps to null and only null; any other input maps to a host without `/` or upper-case letters |
| Normalizer.CleanOfClean | src/main/java/com/example/domainchecker/service/DomainCheckerService.java:197-205 | on a string without `/` or upper-case letters, cleaning is just trimming |
| Normalizer.CleanTwice | src/main/java/com/example/domainchecker/service/DomainCheckerService.java:197-205 | a second cleaning only trims what the first one exposed |
| Normalizer.CleanIdempotentIff | src/main/java/com/example/domainchecker/service/DomainCheckerService.java:197-205 | cleaning is idempotent on an input exactly when its cleaned form has nothing left to trim |
| Normalizer.CleanOfTrim | src/main/java/com/example/domainchecker/controller/DomainController.java:65 | trimming in the controller before the service cleans changes nothing |
| Normalizer.CleanNotIdempotent | src/main/java/com/example/domainchecker/service/DomainCheckerService.java:199-201 | `http:// x` cleans to ` x`, and cleaning that again gives `x` |
| Normalizer.CleanExampleUrl | src/main/java/com/example/domainchecker/service/DomainCheckerService.java:197-205 | `HTTPS://Example.COM/path` cleans to `example.com` |
| Normalizer.CleanHttpThenHttps | src/main/java/com/example/domainchecker/service/DomainCheckerService.java:200-201 | `http://https://x` loses both schemes |
| Normalizer.CleanHttpsThenHttp | src/main/java/com/example/domainchecker/service/DomainCheckerService.java:200-203 | `https://http://x` cleans to `http:`, because the `http://` check has already run |
| Normalizer.CleanBareScheme | src/main/java/com/example/domainchecker/service/DomainCheckerService.java:197-205 | `http://` is not blank after trimming, yet it cleans to the empty host |
| Probes.CheckReachable | src/main/java/com/example/domainchecker/service/DomainCheckerService.java:98-105 | one lookup with a 3000 ms timeout; the probe answers true on success and false on an `IOException`, and any other exception escapes |
| Probes.TryInOrder | src/main/java/com/example/domainchecker/service/DomainCheckerService.java:110-123 | the fallback loop answers with the first URL that responds, lets the first uncaught failure escape, and is exhausted exactly when every attempt failed in a caught way |
| Probes.TryTwo | src/main/java/com/example/domainchecker/service/DomainCheckerService.java:110-123 | the two-URL fallback, spelled out case by case |
| Probes.StatusAttempt | src/main/java/com/example/domainchecker/service/DomainCheckerService.java:110-120 | one pass of the status loop: a URL that `new URL` rejects fails with an `IOException` before any request; a negative connect timeout throws `IllegalArgumentException` before any request; otherwise the outcome is the connection's |
| Probes.CheckHttpStatus | src/main/java/com/example/domainchecker/service/DomainCheckerService.java:107-125 | tries `http://` then `https://`; a URL `new URL` rejects fails like an `IOException` without a request, a negative connect timeout throws `IllegalArgumentException` before any request; a request carries the configured connect timeout and 10000 ms read timeout; only an `IOException` moves on, and the escaping exception is that of the attempt that threw; the answer is -1 exactly when both fail in a caught way or a server answers -1; the `https://` request is made exactly when that URL opens and the `http://` attempt failed with an `IOException` |
| Probes.FetchTimeout | src/main/java/com/example/domainchecker/service/DomainCheckerService.java:83 | the request timeout is the larger of the configured timeout and 5000 ms |
| Probes.Summary | src/main/java/com/example/domainchecker/service/DomainCheckerService.java:91 | a summary line ends in `)` and is never `No Response`, so the two outcomes of the curl check cannot be confused; `Probes.SummaryRoundTrip` shows it reads back to its parts |
| Probes.CheckCurlStyle | src/main/java/com/example/domainchecker/service/DomainCheckerService.java:77-96 | tries `https://` then `http://`; a URL `URI.create` rejects sends nothing and counts as no answer; the first URL that answers gives `<SCHEME> <code> (<ms> ms)` with truncated milliseconds; `No Response` exactly when neither answers; the `http://` request is sent exactly when that URL parses and `https://` did not answer; every request carries a timeout of at least 5000 ms |
| Probes.SplitAtSpaceOf | src/main/java/com/example/domainchecker/service/DomainCheckerService.java:91 | a summary splits at the space after its scheme tag |
| Probes.ParseElapsedOf | src/main/java/com/example/domainchecker/service/DomainCheckerService.java:91 | the bracketed millisecond part reads back as its number |
| Probes.NoSpaceInNumber | src/main/java/com/example/domainchecker/service/DomainCheckerService.java:91 | a rendered integer contains no space |
| Probes.SummaryRoundTrip | src/main/java/com/example/domainchecker/service/DomainCheckerService.java:91 | a curl summary parses back to its scheme, status code and milliseconds |
| Probes.NoResponseIsNoSummary | src/main/java/com/example/domainchecker/service/DomainCheckerService.java:95 | `No Response` does not parse as a summary |
| Probes.CurlSummaryDecodes | src/main/java/com/example/domainchecker/service/DomainCheckerService.java:77-96 | the curl check's text decodes to the scheme, code and truncated time of the request that answered, and decodes to nothing when neither answered |
| Probes.CheckVirusTotal | src/main/java/com/example/domainchecker/service/DomainCheckerService.java:127-152 | the result is always one of the four labels. Without an API key: `Not Checked (API Key Required)` and no request. With a key but a URL `URI.create` rejects or a non-positive timeout: `Error/No Data` and no request. Otherwise one request, then `Unsafe` exactly when a 200 reply counts a malicious or suspicious engine, `Safe` exactly when a 200 reply counts neither, and `Error/No Data` exactly otherwise |
| Probes.FlaggedEntries | src/main/java/com/example/domainchecker/service/DomainCheckerService.java:173-185 | at most one entry per engine verdict; no entry exactly when no verdict flags the domain |
| Probes.Entry | src/main/java/com/example/domainchecker/service/DomainCheckerService.java:184-185 | an entry starts with the engine name and a colon, and carries a parenthesised result exactly when the result is not empty |
| Probes.AppendEntries | src/main/java/com/example/domainchecker/service/DomainCheckerService.java:175-189 | the builder loop only appends to the builder, and appends something exactly when some engine says malicious or suspicious |
| Probes.GetVirusTotalDetails | src/main/java/com/example/domainchecker/service/DomainCheckerService.java:157-195 | null and no request unless a key is set, the URL parses and the timeout is positive; otherwise one request; details exist exactly when the reply lists engines and some engine says malicious or suspicious; the details are the flagged entries joined by `; ` and ending in `;` |
| Probes.AppendEntriesIsTerminated | src/main/java/com/example/domainchecker/service/DomainCheckerService.java:173-185 | the builder loop appends `<engine>:<category>`, then `(<result>)` when the result is non-empty, then `; `, for every flagging engine, in engine order |
| Probes.TerminatedIsJoin | src/main/java/com/example/domainchecker/service/DomainCheckerService.java:173-188 | entries each followed by `; ` equal the entries joined by `; ` plus a final `; ` |
| Probes.DetailsSummary | src/main/java/com/example/domainchecker/service/DomainCheckerService.java:186-190 | the trimmed builder is empty exactly when no engine flags the domain, and otherwise is the joined entries ending in `;` |
| Probes.DetailsOf | src/main/java/com/example/domainchecker/service/DomainCheckerService.java:175-191 | the details are null exactly when there is no engine list or no engine flags the domain; otherwise they are the flagged entries joined by `; `, ending in `;`, with leading white space trimmed |
| Probes.RunSeleniumCheck | src/main/java/com/example/domainchecker/service/DomainCheckerService.java:216-248 | always records load time (truncated milliseconds) and browser reachability. On load: the title and the page source length in UTF-16 units; otherwise: `<Exception>: <message>`. No non-browser property changes, and on a row without browser properties the outcome is exactly the browser's. The browser is launched, and navigated and quit exactly when it launched |
| Probes.SourceLength | src/main/java/com/example/domainchecker/service/DomainCheckerService.java:236 | the page source length is 0 for no source and otherwise the UTF-16 length of the source, never less than its character count |
| Probes.QuitOnceWhenLaunched | src/main/java/com/example/domainchecker/service/DomainCheckerService.java:243-247 | the driver is quit exactly once when it was created, and never otherwise |
| Probes.SeleniumFrame | src/main/java/com/example/domainchecker/service/DomainCheckerService.java:234-242 | the browser check changes only the properties its branch sets |
| Service.Save | src/main/java/com/example/domainchecker/service/DomainCheckerService.java:70 | saving throws exactly when the store fails, or when a column-enforcing store gets a row with a null non-nullable column or a string longer than its column (4000 for `virus_details`, 2000 for `selenium_error`, 255 otherwise), with the store's exception; otherwise it assigns the id, stamps a missing timestamp and keeps every other property |
| Service.SavedRecord | src/main/java/com/example/domainchecker/service/DomainCheckerService.java:70 | a saved row is the input with the store's id and, when it had none, the store's timestamp |
| Service.Score | src/main/java/com/example/domainchecker/service/DomainCheckerService.java:57-61 | the fresh result carries the host, reachability and status, the VirusTotal label and details computed from the two replies, and null everywhere else; two reputation requests are made exactly when the probe sends at all, and none otherwise |
| Service.Collect | src/main/java/com/example/domainchecker/service/DomainCheckerService.java:57-69 | the unsaved result holds, field by field, the host, reachability, status, the VirusTotal label and details, the curl summary and the browser outcome; without a key no reputation query is made |
| Service.QueryFreeCollect | src/main/java/com/example/domainchecker/service/DomainCheckerService.java:57-69 | the steps after scoring add no reputation query |
| Service.QueryFreeConcat | src/main/java/com/example/domainchecker/service/DomainCheckerService.java:52-71 | two traces without reputation queries concatenate to one |
| Service.QueryFreeTrace | src/main/java/com/example/domainchecker/service/DomainCheckerService.java:52-71 | persisting adds no reputation query |
| Service.QueryFreeConcatWhen | src/main/java/com/example/domainchecker/service/DomainCheckerService.java:52-71 | conditional form of the concatenation fact |
| Service.CheckHost | src/main/java/com/example/domainchecker/service/DomainCheckerService.java:52-71 | a reachability exception escapes after the single lookup; otherwise the trace is the lookup followed by the rest of the check run on the lookup's answer; the lookup always comes first |
| Service.Reached | src/main/java/com/example/domainchecker/service/DomainCheckerService.java:98-105 | when the lookup does not escape, the check continues as reachable exactly when the lookup succeeded |
| Service.CheckHostFails | src/main/java/com/example/domainchecker/service/DomainCheckerService.java:52-71 | the check throws exactly when the reachability probe or the status probe lets a non-I/O exception escape, or the store refuses the collected row; the exception is the reachability probe's, the status probe's or the store's, in that order of precedence |
| Service.CheckHostRecords | src/main/java/com/example/domainchecker/service/DomainCheckerService.java:52-71 | a successful check stores, field by field, what every probe returned, under the id and timestamp the store assigned, and its last call is the save |
| Service.CheckHostQueryFree | src/main/java/com/example/domainchecker/service/DomainCheckerService.java:52-71 | without an API key no call of the check is a reputation query |
| Service.Probe | src/main/java/com/example/domainchecker/service/DomainCheckerService.java:57-70 | after reachability, the check throws exactly when the status probe escapes (with its exception) or the store refuses the collected row (with the store's exception); the status requests come first and the save last; a successful check returns the collected row under the store's id and timestamp |
| Service.Finish | src/main/java/com/example/domainchecker/service/DomainCheckerService.java:62-70 | after scoring: the save throws exactly when the store refuses the collected row, with the store's exception; a saved row is the collected one under the store's id and timestamp; the save is the last call |
| Service.CheckDomain | src/main/java/com/example/domainchecker/service/DomainCheckerService.java:52-71 | the stored domain is the cleaned input; the first request looks up the cleaned host; without a key no reputation query is made |
| Service.BrowserNeverDecides | src/main/java/com/example/domainchecker/service/DomainCheckerService.java:64-70 | when the browser strings fit their columns (or the store does not enforce columns), whatever the browser does, the check succeeds or fails alike and stores the same non-browser properties |
| Service.SaveKeepsBrowserFree | src/main/java/com/example/domainchecker/service/DomainCheckerService.java:70 | saving two results that differ only in browser properties, whose browser strings fit alike, succeeds or fails alike and gives results that differ only there |
| Service.CollectIgnoresBrowser | src/main/java/com/example/domainchecker/service/DomainCheckerService.java:62-70 | rows collected under two browser outcomes agree outside the browser properties, and each fits the table exactly when the shared columns fit and its browser strings do |
| Service.CollectFits | src/main/java/com/example/domainchecker/entity/DomainResult.java:14-49 | a collected row fits the table exactly when its non-browser columns and the browser's title or error text fit |
| Service.BrowserColumnsFitOutcome | src/main/java/com/example/domainchecker/entity/DomainResult.java:39-49 | the browser columns of a row holding a browser outcome fit exactly when the title (255) or the error text (2000) does |
| Service.RecordedIgnoresBrowser | src/main/java/com/example/domainchecker/service/DomainCheckerService.java:57-69 | two rows recording the same probes under different browsers agree outside the browser properties |
| Service.LongTitleFailsCheck | src/main/java/com/example/domainchecker/entity/DomainResult.java:39-40 | with a column-enforcing store, a page title longer than 255 UTF-16 units makes the whole check throw the store's exception |
| Service.BrowserRefusedFailsCheck | src/main/java/com/example/domainchecker/service/DomainCheckerService.java:65-70 | with a column-enforcing store, a browser title or error text too long for its column makes the check throw the store's exception |
| Service.RecheckStoredHost | src/main/java/com/example/domainchecker/service/DomainCheckerService.java:52-71 | rechecking a stored host probes the trimmed stored host, and repeats the original check when nothing is left to trim |
| Service.BareSchemeChecksEmptyHost | src/main/java/com/example/domainchecker/service/DomainCheckerService.java:52-71 | `http://` is checked as the empty host |
| Filters.ParseDateStart | src/main/java/com/example/domainchecker/controller/DomainController.java:371-379 | a bound exists exactly when the text is not blank and parses, and it is midnight of the parsed day |
| Filters.ParseDateEnd | src/main/java/com/example/domainchecker/controller/DomainController.java:381-389 | a bound exists exactly when the text is not blank and parses, and it is 23:59:59 of the parsed day |
| Filters.NormalizeIsoDate | src/main/java/com/example/domainchecker/controller/DomainController.java:391-400 | the echo is the input when it parses, and empty otherwise |
| Filters.NormalizeKeepsBounds | src/main/java/com/example/domainchecker/controller/DomainController.java:371-400 | a normalised date gives the same start and end bounds as the raw one |
| Filters.Select | src/main/java/com/example/domainchecker/controller/DomainController.java:351-368 | filtering keeps the admitted results, in their original order, and drops the rest; `Filters.SelectCounts` adds that every copy of an admitted result is kept |
| Filters.ApplyFilters | src/main/java/com/example/domainchecker/controller/DomainController.java:340-369 | the output is an order-preserving subsequence of the input; it holds every copy of each input that passes all four filters and no copy of any other |
| Filters.SelectCounts | src/main/java/com/example/domainchecker/controller/DomainController.java:351-368 | filtering keeps as many copies of each admitted result as the input holds, and none of any other result |
| Filters.SelectNothing | src/main/java/com/example/domainchecker/controller/DomainController.java:351-368 | criteria that admit nothing select nothing |
| Filters.SelectKeepsAdmitted | src/main/java/com/example/domainchecker/controller/DomainController.java:351-368 | a list whose every element passes is kept whole |
| Filters.ApplyFiltersIdempotent | src/main/java/com/example/domainchecker/controller/DomainController.java:340-369 | filtering twice equals filtering once |
| Filters.NoFiltersKeepStamped | src/main/java/com/example/domainchecker/controller/DomainController.java:362-367 | with no filters set, exactly the results with a timestamp are kept |
| Filters.UnknownReachableSelectsNothing | src/main/java/com/example/domainchecker/controller/DomainController.java:354-356 | a reachability filter other than yes/no (ignoring case) hides every result |
| Filters.UnknownSafetySelectsNothing | src/main/java/com/example/domainchecker/controller/DomainController.java:357-361 | a safety filter other than safe/unsafe (ignoring case) hides every result |
| Filters.UnparseableDateIsNoBound | src/main/java/com/example/domainchecker/controller/DomainController.java:371-389 | dates that do not parse filter as if they were absent |
| Filters.SafeFilterAdmitsUnsafe | src/main/java/com/example/domainchecker/controller/DomainController.java:357-361 | an `Unsafe` result passes both the safe and the unsafe filter |
| Filters.EndOfDayCutoff | src/main/java/com/example/domainchecker/controller/DomainController.java:381-389 | on the end day, a result passes exactly when it was created no later than 23:59:59 |
| Controller.SubmitDomain | src/main/java/com/example/domainchecker/controller/DomainController.java:55-78 | rejected without calling the service exactly when the input is null or trims to nothing. Otherwise the service gets the trimmed input; on success the message names the stored domain; on failure it carries the exception message |
| Controller.SubmitReportsCleanHost | src/main/java/com/example/domainchecker/controller/DomainController.java:65-70 | with the real service, the form makes the service's calls and reports the cleaned host |
| Controller.BareSchemePassesGuard | src/main/java/com/example/domainchecker/controller/DomainController.java:59-65 | `http://` passes the blank guard and is checked as the empty host |
| Controller.ApiCheckDomain | src/main/java/com/example/domainchecker/controller/DomainController.java:230-241 | the API returns the service's result, or a fresh result with the raw domain, unreachable, status -1 and `Error: <message>`, with every other property null |
| Controller.ApiMatchesForm | src/main/java/com/example/domainchecker/controller/DomainController.java:230-241 | the API and the form make the same calls and succeed alike |
| Controller.ApiErrorIsNoLabel | src/main/java/com/example/domainchecker/controller/DomainController.java:238 | an API error verdict is never one of the service's four labels |
| Controller.BulkDomain | src/main/java/com/example/domainchecker/controller/DomainController.java:201 | a prepared line holds no quote and no tab, is no longer than the line, and keeps every other character of the trimmed line as often as it occurs there |
| Controller.NonEmpty | src/main/java/com/example/domainchecker/controller/DomainController.java:202 | skipping empty lines never adds any |
| Controller.NonEmptyKeeps | src/main/java/com/example/domainchecker/controller/DomainController.java:202 | every kept line is non-empty and comes from the input, and every non-empty line is kept exactly as often as it occurs |
| Controller.Candidates | src/main/java/com/example/domainchecker/controller/DomainController.java:200-202 | there are at most as many bulk candidates as lines |
| Controller.CandidatesAreStripped | src/main/java/com/example/domainchecker/controller/DomainController.java:200-202 | every candidate is non-empty, has no quote or tab, and is the stripped form of some line |
| Controller.CandidatesKeepEveryDomain | src/main/java/com/example/domainchecker/controller/DomainController.java:200-210 | no line is lost: every line that is non-empty once stripped is checked, each distinct domain as often as it occurs |
| Controller.Successes | src/main/java/com/example/domainchecker/controller/DomainController.java:204-208 | successes never outnumber candidates |
| Controller.BulkSpec | src/main/java/com/example/domainchecker/controller/DomainController.java:187-223 | rejected exactly for null or blank text; otherwise the processed count is the number of non-empty stripped lines, and successes are at most that |
| Controller.BulkMessageDeterminesCounts | src/main/java/com/example/domainchecker/controller/DomainController.java:213-215 | the success message names both counts: two messages are equal only when their processed and successful counts are (`Controller.BulkMessage`) |
| Controller.ProcessedIgnoresOutcomes | src/main/java/com/example/domainchecker/controller/DomainController.java:204-210 | the processed count does not depend on whether the checks succeed |
| Controller.CheckBulkDomains | src/main/java/com/example/domainchecker/controller/DomainController.java:187-223 | the loop computes the bulk outcome and makes exactly the candidates' calls, in order; no call when rejected |
| Controller.CheckLines | src/main/java/com/example/domainchecker/controller/DomainController.java:200-211 | the loop counts non-empty lines and successful checks, and collects their calls |
| Controller.TallySnoc | src/main/java/com/example/domainchecker/controller/DomainController.java:204-210 | one more candidate adds one success exactly when its check succeeds, and appends its calls |
| Controller.PageWindowAsWritten | src/main/java/com/example/domainchecker/controller/DomainController.java:98-102 | with 32-bit arithmetic, any window that does not throw lies within the results |
| Controller.PageWindow | src/main/java/com/example/domainchecker/controller/DomainController.java:98-102 | the window throws exactly for a negative page; otherwise it starts at page × 50 clipped to the total, and holds 50 results or runs to the end |
| Controller.TotalPages | src/main/java/com/example/domainchecker/controller/DomainController.java:103 | the page count is the ceiling of total / 50 |
| Controller.PageOf | src/main/java/com/example/domainchecker/controller/DomainController.java:100-102 | a page holds at most 50 results, is empty past the end, and otherwise holds the next min(50, remaining) results in order |
| Controller.PagesCoverResults | src/main/java/com/example/domainchecker/controller/DomainController.java:100-103 | every result appears on a page below the page count, at its expected slot |
| Controller.PagePastEndIsEmpty | src/main/java/com/example/domainchecker/controller/DomainController.java:100-103 | a page is empty exactly when its number reaches the page count |
| Controller.AsWrittenAgreesInRange | src/main/java/com/example/domainchecker/controller/DomainController.java:98-102 | when the page is not negative and page × 50 + 50 fits an `int`, the as-written window equals the intended one |
| Controller.PageOverflowExample | src/main/java/com/example/domainchecker/controller/DomainController.java:100-101 | page 85899346 of 100 results shows results 4 to 53 instead of an empty page |
| Controller.ReachableCount | src/main/java/com/example/domainchecker/controller/DomainController.java:111 | the reachable count is at most the number of results |
| Controller.SafeCount | src/main/java/com/example/domainchecker/controller/DomainController.java:112-113 | the safe count is at most the number of results |
| Controller.LabelCount | src/main/java/com/example/domainchecker/controller/DomainController.java:112-113 | a label's count is at most the number of results |
| Controller.SafeLabels | src/main/java/com/example/domainchecker/controller/DomainController.java:112-113 | among the service's four labels, exactly `Safe` and `Unsafe` contain "safe" after lower-casing |
| Controller.SafeIsSafe | src/main/java/com/example/domainchecker/controller/DomainController.java:113 | `Safe` counts as safe |
| Controller.UnsafeIsSafe | src/main/java/com/example/domainchecker/controller/DomainController.java:113 | `Unsafe` counts as safe too |
| Controller.NotCheckedIsNotSafe | src/main/java/com/example/domainchecker/controller/DomainController.java:113 | `Not Checked (API Key Required)` does not count as safe |
| Controller.ErrorIsNotSafe | src/main/java/com/example/domainchecker/controller/DomainController.java:113 | `Error/No Data` does not count as safe |
| Controller.SafeCountCountsUnsafe | src/main/java/com/example/domainchecker/controller/DomainController.java:112-113 | on service-produced results, the safe count is the number of `Safe` plus the number of `Unsafe` results |
| Controller.AdmitsYes | src/main/java/com/example/domainchecker/controller/DomainController.java:354-355 | a lone `yes` filter admits a result exactly when it is reachable |
| Controller.ReachableCountIsYesFilter | src/main/java/com/example/domainchecker/controller/DomainController.java:111 | the reachable count equals the size of the list the `yes` filter would keep |
| Filters.SelectSnoc | src/main/java/com/example/domainchecker/controller/DomainController.java:351-368 | filtering one more result appends it exactly when it passes |
| Controller.Pair | src/main/java/com/example/domainchecker/controller/DomainController.java:416-417 | an encoded `key=value` pair is never empty |
| Controller.AppendQuery | src/main/java/com/example/domainchecker/controller/DomainController.java:413-418 | a null or blank value appends nothing; otherwise `&` is added when the builder is not empty, then the encoded pair |
| Controller.QueryPairs | src/main/java/com/example/domainchecker/controller/DomainController.java:404-410 | there is one non-empty pair per non-blank parameter, at most one per parameter |
| Controller.JoinEmpty | src/main/java/com/example/domainchecker/controller/DomainController.java:410 | the joined query is empty exactly when there are no pairs |
| Controller.AppendQueryJoins | src/main/java/com/example/domainchecker/controller/DomainController.java:413-418 | appending to a joined query is joining one more pair |
| Controller.QueryPairsSnoc | src/main/java/com/example/domainchecker/controller/DomainController.java:404-410 | one more parameter adds a pair exactly when it is not blank |
| Controller.BuildFiltersQuery | src/main/java/com/example/domainchecker/controller/DomainController.java:402-411 | the export query is empty exactly when every filter is null or blank; `Controller.FiltersQueryIsJoin` gives its contents |
| Controller.FiltersQueryIsJoin | src/main/java/com/example/domainchecker/controller/DomainController.java:402-418 | `buildFiltersQuery` (`Controller.BuildFiltersQuery`) is the encoded `key=value` pairs of the non-blank filters, in parameter order, joined by `&` |
| Controller.BlankFiltersGiveEmptyQuery | src/main/java/com/example/domainchecker/controller/DomainController.java:402-418 | no non-blank filter means an empty query |
| Controller.ListDomains | src/main/java/com/example/domainchecker/controller/DomainController.java:84-144 | the error view appears exactly when loading fails or the 32-bit page window throws, with every list and filter attribute emptied and the message taken from the exception. Otherwise: the page of filtered results cut by the as-written window, the totals and statistics of the filtered list, the filter echoes and the export query |
| Controller.ErrorView | src/main/java/com/example/domainchecker/controller/DomainController.java:129-141 | the catch block: the results, totals, statistics, filter echoes and query are emptied, and the error reads `Error loading domain results: ` followed by the exception's message, or by `null` when it has none |
| Controller.ListDomainsInRange | src/main/java/com/example/domainchecker/controller/DomainController.java:97-108 | when page × 50 + 50 fits an `int` and the page is not negative, the list shows exactly the intended page of the filtered results |
| Controller.ListDomainsNegativePage | src/main/java/com/example/domainchecker/controller/DomainController.java:97-103 | a negative page whose offset fits an `int` shows the error view |
| Controller.ListDomainsWrapsToError | src/main/java/com/example/domainchecker/controller/DomainController.java:100-101 | page 42949673 wraps to a negative offset and shows the error view |
| Controller.ListDomainsWrapsToWrongPage | src/main/java/com/example/domainchecker/controller/DomainController.java:100-108 | page 85899346 of 100 filtered results shows results 4 to 53 although the intended page is empty |

## Left out

- Network, DNS, HTTP, JSON and browser I/O: each outcome is a field of `Service.World`, and each request appears only as a `Call` in the trace. Response bodies are modelled as already-parsed replies (status, optional statistics, optional engine verdicts). Jackson parsing itself is not part of this model.
- Clocks: `System.nanoTime` differences and `LocalDateTime.now()` are parameters (`elapsedNanos`, `Store.now`).
- `LocalDate.parse` is a parameter (`Filters.DateParser`, from text to a day number). `URLEncoder.encode` is a parameter (`Controller.Encoder`).
- The JPA repository: saving is `Service.Save` against a `Store` that either fails, or hands out an id and timestamp and, when `rejects` is set, refuses a row that breaks a `nullable = false` column or a column length. Loading is a `Result` argument to `Controller.ListDomains`. Its query ordering is not modelled.
- Service.Save: a database that silently truncates an over-long string is not modelled. A store whose `rejects` is unset keeps any row unchanged, and one whose `rejects` is set throws the given exception.
- Column lengths are counted in UTF-16 code units (`Strings.Utf16Length`), as Java's `String.length()` counts them. How a particular database counts characters is not modelled.
- `URI.create` and `new URL` are the predicates `Probes.UrlSyntax.uri` and `Probes.UrlSyntax.url`, given by the `World`. Java's RFC 2396 grammar itself is not modelled.
- Probes.CheckHttpStatus: the message of the `MalformedURLException` is not modelled (it is `None`). An `IOException` from `openConnection` is folded into the `connect` outcome of that URL.
- Probes.CheckVirusTotal: every non-blank API key is taken to be a legal header value. For a key that `header` rejects, the source answers `Error/No Data` without a request, while the model records one request and reads the label from the reply. `Probes.GetVirusTotalDetails` makes the same assumption.
- `DomainCheckerApplication`, `HealthController`, `DomainResultRepository`, and the export, view, delete and plain form-display endpoints of `DomainController` are not part of this model.
- Spring's `Model` and `RedirectAttributes` are the datatypes `Controller.ListView`, `Controller.Submission` and `Controller.BulkOutcome`. View names are constants.
- Strings.ToLower: ASCII letters only. The source's locale-sensitive `toLowerCase` and `equalsIgnoreCase` on non-ASCII letters are not modelled.
- Controller.ReachableCount: the counters are unbounded, and the `long` width of the source is not modelled. The same holds for the bulk counters (`int`), which cannot overflow at any realistic input size.
- Controller.CheckBulkDomains: the `catch` around the whole bulk handler is not modelled. Nothing in the modelled loop throws.
- Service.CheckHost: the `catch` around `runSeleniumCheck` in `checkDomain` is not modelled. `runSeleniumCheck` catches every exception itself, so that handler never runs in the model.
- `System.err` logging in the bulk loop and in the probes has no effect on results and is left out.
- The controller's service dependency is the `Controller.Checker` parameter. The lemmas `SubmitReportsCleanHost`, `BareSchemePassesGuard` and `ApiMatchesForm` connect it to the service model through `Controller.ServiceFor`.
- The two VirusTotal requests (`checkVirusTotal` and `getVirusTotalDetails`) each receive their own reply from the `World`.
- The null domain in `apiCheckDomain` is not modelled, because the request parameter is required. Its `domain.trim()` failure would be caught by the same handler.
- Ordering of `findAllOrderByCreatedAtDesc` is left to the repository and not modelled.

## Findings

| source | as written | input that shows it | evidently intended | confidence | as-written member | corrected member |
|---|---|---|---|---|---|---|
| src/main/java/com/example/domainchecker/controller/DomainController.java:100-101 | `page * pageSize` is computed in 32-bit `int` and can wrap around | `page=85899346` with 100 filtered results: `85899346 * 50` wraps to 4, so the page shows results 4–53 | a page past the end is empty | not executed | Controller.ListDomainsWrapsToWrongPage | Controller.PagePastEndIsEmpty |

`Controller.ListDomains` follows the code as written (`Controller.PageWindowAsWritten`). `Controller.PageWindow` is the corrected window; `Controller.PagePastEndIsEmpty` is proved about it, and `Controller.ListDomainsInRange` shows that the list agrees with it when the page is not negative and page × 50 + 50 fits an `int`.
