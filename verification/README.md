# cost-web-app log endpoint and main controller, modelled in Dafny

This project models the logic of two Spring controllers of the `cost-web-app` web application.

- **`LogController`** serves `GET /api/logs`. It caps the requested line count at 1000. It serves a
  snapshot from a one-slot cache when the snapshot is at most 2000 ms old and was read for the same
  count. With three journal reads in flight it sheds load: it returns any snapshot with a warning, or a
  soft failure when there is none. Otherwise it reads the `cost-web-app` unit's journal, falling back to
  a fixed seven-line sample off Linux or when `journalctl` fails, stores the result and returns it.
- **`MainController`** has three pieces of logic. It picks the client address from four proxy headers,
  then from the remote address. It validates the login form against the stub `admin`/`admin`. On the
  landing page it replaces missing headers with defaults.

The model is purely functional. The controller's fields are a `State` value. A request is a function
from the old state to a response and a new state. The clock, the operating system and the `journalctl`
subprocess are parameters. `SourceOutcome` stands for the subprocess: not Linux, exited with a code and
the captured lines, or threw.

Modules:

- `Wrappers`: `Option` and `Result`, standing for `null` and for a thrown exception.
- `Decimal`: renders an integer the way Java's string concatenation does, and parses it back.
- `AsciiText`: `String.trim()`, and `equalsIgnoreCase` for ASCII.
- `LogSource`: `getLocalLogs` and `readLogsFromSystem`.
- `LogController`: `isExpired` and `getLogs`, plus `Run`, which serves a sequence of requests one after
  another.
- `MainController`: `getClientIp`, `login`, and the header defaults of `index`.

The model follows the code on these points:

- The requested count is only capped above (`Math.min(lines, 1000)`). It is not clamped at 0. A negative
  count makes `getLocalLogs` call `subList(0, n)` with a negative `n`. That throws. On the fallback paths
  the exception reaches the handler of `getLogs`, which answers `success=false` with an error.
  `LogSource.LocalLogs` and `LogController.FetchAndStore` model this path.
- When `journalctl` exits with code 0, its captured lines are returned as they are. They are not
  truncated to the requested count.
- A snapshot is still fresh at exactly 2000 ms, because `isExpired` uses a strict `>`.
- The source reads the clock twice: once in the freshness test and once when a new snapshot is built.
  The model therefore takes two readings, `now` and `fetchedAt`.

## Model

| member | source | states |
|---|---|---|
| `LogController.EffectiveCount` | src/main/java/com/cost/app/controller/LogController.java:71 | the count used is at most 1000 and at most the request; it is the request itself or 1000 (no lower clamp, so negatives pass through) |
| `LogController.IsExpired` | src/main/java/com/cost/app/controller/LogController.java:46-47 | expiry is strict: an age of exactly the duration is not expired, one millisecond more is, and a snapshot is never expired at or before its own timestamp (for a non-negative duration); pinned for the cache by FreshnessBoundary |
| `LogController.IsHit` | src/main/java/com/cost/app/controller/LogController.java:76-78 | the hit test holds exactly when a snapshot exists, was read for the same count, and is at most 2000 ms old; HitIff ties it to the response |
| `LogController.FreshnessBoundary` | src/main/java/com/cost/app/controller/LogController.java:46-47 | expiry is strict: a snapshot exactly 2000 ms old still hits, one 2001 ms old misses |
| `LogController.FromSnapshot` | src/main/java/com/cost/app/controller/LogController.java:80-83 | a snapshot is delivered as success with `cached=true`, its lines in order and `lines` equal to their number |
| `LogController.HitIff` | src/main/java/com/cost/app/controller/LogController.java:76-84 | a response is an unwarned cache hit exactly when a snapshot exists, its age is at most 2000 ms, and its stored count equals the effective count |
| `LogController.ShedLoad` | src/main/java/com/cost/app/controller/LogController.java:91-111 | under overload any snapshot is returned whatever its age or count, with `cached=true`, the load warning and no error; with none, `success=false`, empty logs and the too-many-requests error |
| `LogController.FetchAndStore` | src/main/java/com/cost/app/controller/LogController.java:113-140 | the in-flight counter ends where it began; a successful read replaces the cache with exactly (lines, fetch time, count) and answers `cached=false` with `lines` equal to the line total; a thrown read leaves the cache alone and answers `success=false` with empty logs and the prefixed exception message |
| `LogController.GetLogs` | src/main/java/com/cost/app/controller/LogController.java:64-141 | one request: the counter is unchanged; a hit leaves the state unchanged and serves the snapshot; a miss at three in flight leaves the state unchanged and sheds load; any other miss reads and stores |
| `LogController.CacheChangesOnlyOnFetch` | src/main/java/com/cost/app/controller/LogController.java:119-125 | the cache only changes on a successful uncached read, and then holds exactly the lines that read returned, for the effective count |
| `LogController.Run` | src/main/java/com/cost/app/controller/LogController.java:91-138 | requests served one after another leave the counter as they found it; starting below three in flight, no request of the sequence is ever shed |
| `LogController.CappedRequestIsCached` | src/main/java/com/cost/app/controller/LogController.java:71-84 | a request for 5000 lines on an empty cache is read and stored under count 1000; a repeat at most 2000 ms later (or at an earlier clock reading) is served from the cache with the same lines, a repeat after that is not |
| `LogController.FourthConcurrentReadIsRefused` | src/main/java/com/cost/app/controller/LogController.java:91-110 | with three reads counted in and nothing cached, a further request gets `success=false`, empty logs and the too-many-requests error |
| `LogSource.SampleLines` | src/main/java/com/cost/app/controller/LogController.java:194-202 | the sample has seven lines; the first five and the seventh are fixed texts, and the sixth is the request-line prefix, the count's decimal text and " lines" |
| `LogSource.LocalLogs` | src/main/java/com/cost/app/controller/LogController.java:190-205 | the fallback fails exactly for a negative count, with the subList range fault; otherwise it returns min(7, count) lines that are a prefix of the seven sample lines |
| `LogSource.LocalLogsBounds` | src/main/java/com/cost/app/controller/LogController.java:204-205 | count 0 gives no lines; counts of 7 or more give all seven sample lines, unpadded; counts in between give exactly that many leading lines |
| `LogSource.RequestLineReportsCount` | src/main/java/com/cost/app/controller/LogController.java:199 | the sixth sample line starts with the fixed prefix and the requested count can be parsed back from it |
| `LogSource.LocalLogsDifferOnlyInRequestLine` | src/main/java/com/cost/app/controller/LogController.java:194-202 | for counts of six or more the first five sample lines do not depend on the count, and the sixth lines are equal exactly when the counts are |
| `LogSource.ReadLogs` | src/main/java/com/cost/app/controller/LogController.java:143-188 | exit code 0 yields the captured lines verbatim and in order; every other outcome yields at most seven fallback lines, a prefix of the sample, and fails exactly when the count is negative |
| `LogSource.FallbackIgnoresCapturedOutput` | src/main/java/com/cost/app/controller/LogController.java:176-187 | a non-zero exit, a thrown subprocess and a non-Linux host all give the same result, whatever partial output was captured |
| `Decimal.IntString` | src/main/java/com/cost/app/controller/LogController.java:199 | the text of a count is non-empty, all digits for a non-negative count, and starts with '-' exactly for a negative one; ParseIntString and IntStringInjective show it loses nothing |
| `Decimal.ParseIntString` | src/main/java/com/cost/app/controller/LogController.java:199 | the decimal text of an integer, as concatenated into the sample line, parses back to that integer |
| `Decimal.IntStringInjective` | src/main/java/com/cost/app/controller/LogController.java:199 | distinct counts are written as distinct text |
| `MainController.Rejected` | src/main/java/com/cost/app/controller/MainController.java:58 | a header value is skipped exactly when it is absent, empty, or lower-cases to "unknown"; a skipped present value is empty or seven characters long; ClientIpIsFirstAccepted applies it in header order |
| `MainController.ClientIp` | src/main/java/com/cost/app/controller/MainController.java:56-71 | the first of X-Forwarded-For, X-Real-IP, Proxy-Client-IP, WL-Proxy-Client-IP that is present, non-empty and not "unknown" in any case is returned verbatim; if all four are rejected the remote address is returned without being checked |
| `MainController.FirstAcceptedIsFirst` | src/main/java/com/cost/app/controller/MainController.java:57-70 | the priority choice yields nothing exactly when every candidate is rejected, and otherwise an accepted candidate preceded only by rejected ones |
| `MainController.ClientIpIsFirstAccepted` | src/main/java/com/cost/app/controller/MainController.java:56-71 | the chain of reassignments equals the first-accepted choice over the four headers, defaulting to the remote address |
| `MainController.RejectionExamples` | src/main/java/com/cost/app/controller/MainController.java:58 | "UnKnOwN" is rejected; "unknown " with a trailing space is accepted; a comma-separated value is returned untrimmed and unsplit; an empty remote address is still returned |
| `AsciiText.EqualsIgnoreCase` | src/main/java/com/cost/app/controller/MainController.java:58 | equal strings compare equal; strings equal ignoring case have the same length and agree exactly on every character that is not an ASCII letter; EqualsIgnoreCaseIffLowerEqual reduces it to comparing lower-cased forms |
| `AsciiText.EqualsIgnoreCaseIffLowerEqual` | src/main/java/com/cost/app/controller/MainController.java:58 | two strings are equal ignoring case exactly when their lower-cased forms are equal |
| `AsciiText.Trim` | src/main/java/com/cost/app/controller/MainController.java:116-117 | trimming yields the empty string exactly when every character is at most U+0020; a non-empty result starts and ends with a character above U+0020 |
| `AsciiText.TrimIsInfix` | src/main/java/com/cost/app/controller/MainController.java:116-117 | the trimmed string is a contiguous slice of the input with only trimmable characters cut from either end |
| `AsciiText.TrimFixesUntrimmed` | src/main/java/com/cost/app/controller/MainController.java:116-117 | a string that neither starts nor ends with a character at or below U+0020 is left unchanged by trimming |
| `MainController.Login` | src/main/java/com/cost/app/controller/MainController.java:105-132 | the redirect to "/" with the success flash happens exactly for username and password both exactly "admin"; a null or blank field gives the login view with the missing-credentials error whatever the other holds; any other input gives the login view with the bad-credentials error |
| `MainController.LoginIsExact` | src/main/java/com/cost/app/controller/MainController.java:125-131 | " admin" and "Admin" fail as bad credentials; an all-space password fails as missing |
| `MainController.Visitor` | src/main/java/com/cost/app/controller/MainController.java:20-51 | the landing page shows the chosen client address; a missing User-Agent or Accept-Language shows "N/A" and a missing Referer the direct-visit text; present values pass through unchanged |

## Left out

- Spawning `journalctl`, reading its output stream and detecting the OS from `os.name` are left out.
  They are replaced by the `SourceOutcome` input. What `journalctl` prints for a negative `-n` is part of
  that input.
- `System.currentTimeMillis` is left out. Its two readings are the parameters `now` and `fetchedAt`.
- Concurrency is left out: the read/write lock, the `volatile` fields, and the non-atomic gap between the
  overload test (LogController.java:91) and the increment (LogController.java:115). Under races that gap
  lets more than three reads run at once. Only sequential steps are modelled, so the bound of three is
  not claimed. A request that finds the counter at three stands for one that arrives while three other
  reads are in flight.
- Fixed-width arithmetic is left out. Counts, exit codes, timestamps and the counter are unbounded
  integers. Two effects of this are not modelled: the 64-bit overflow of `now - timestamp` in `isExpired`,
  and a 32-bit wrap of `activeRequests`. Neither is reachable in practice.
- LogController.FetchAndStore: the only exception modelled at the handler of `getLogs` is the one from
  `subList` on a negative count. Its text follows the JDK's `ArrayList.subList` range check, which is not
  part of this model. Errors of the virtual machine, such as running out of memory, are not modelled.
- MainController.ClientIp: `equalsIgnoreCase("unknown")` is modelled as an ASCII case fold. Non-ASCII
  characters that Java folds onto ASCII letters are not folded here; an example is KELVIN SIGN onto `k`.
- Spring plumbing is left out: annotations, `ResponseEntity`, `HashMap`, `Model`, `RedirectAttributes`,
  sessions and view templates. The response is the `Response` value, and the login result is a view name
  with its error and flash attributes.
- The other attributes of `index` are left out: session id, request URI, method, server name and port,
  remote host, the fixed titles, and the formatted current time. They are copied from the servlet
  request or from the clock and involve no decision.
- The `home`, `loginPage` and component-page handlers are left out, because they only return a view name.
  The `rememberMe` parameter of `login` is left out because nothing reads it.
- Spring turns a `lines` parameter that is not an integer into a 400 error; that is left out. A missing
  parameter defaults to 100, which `Run` models.
